/** What a merge counts: no new duplicates, conservation of edges, and the exact condition under
  * which a dry run predicts the real run. */
module MergeCounts {
  import opened Common
  import opened PropertyGraph
  import opened Store
  import opened MergeEdges

  // No duplicate is ever added.

  lemma InvalidateAddsNoDuplicate(g: Graph, rn: Uuid, ts: Timestamp, r: Uuid, q: Uuid)
    requires Duplicates(g.Invalidate(rn, ts), r, q)
    ensures Duplicates(g, r, q)
  {
  }

  lemma InsertAddsNoDuplicate(g: Graph, row: Edge, a: Uuid, b: Uuid, r: Uuid, q: Uuid)
    requires WellFormed(g) && !g.HasDirectedEdge(a, b, row.name, row.group)
    requires Duplicates(g.InsertEdge(row, a, b), r, q)
    ensures Duplicates(g, r, q)
  {
    assert !g.Links(r, a, b, row.name, row.group);
    assert !g.Links(q, a, b, row.name, row.group);
  }

  lemma ApplyAddsNoDuplicate(g: Graph, m: Merge, e: FullEdge, r: Uuid, q: Uuid)
    requires WellFormed(g)
    requires Duplicates(Apply(g, m, e), r, q)
    ensures Duplicates(g, r, q)
  {
    match Decide(g, m, e)
    case SkipInvalid | SkipForeign =>
    case DropSelfLoop | Deduplicate => InvalidateAddsNoDuplicate(g, e.uuid, m.ts, r, q);
    case Rewrite =>
      var row, a, b := e.row.(invalidAt := None), Redirect(m, e.src), Redirect(m, e.dst);
      InvalidateAddsNoDuplicate(g.InsertEdge(row, a, b), e.uuid, m.ts, r, q);
      InsertAddsNoDuplicate(g, row, a, b, r, q);
  }

  /** Two rows that duplicate each other after the merge are old rows that already did. */
  lemma {:induction false} MergeAddsNoDuplicate(g: Graph, m: Merge, es: seq<FullEdge>, r: Uuid, q: Uuid)
    requires Sound(g, m) && forall i :: 0 <= i < |es| ==> Candidate(g, m, es[i])
    requires Duplicates(Rewritten(g, m, es), r, q)
    ensures Duplicates(g, r, q)
  {
    if es != [] {
      var front := es[..|es| - 1];
      RewriteProgresses(g, m, front);
      ApplyAddsNoDuplicate(Rewritten(g, m, front), m, es[|es| - 1], r, q);
      MergeAddsNoDuplicate(g, m, front, r, q);
    }
  }

  lemma MergeKeepsUniqueness(g: Graph, m: Merge, es: seq<FullEdge>, split: nat)
    requires Sound(g, m) && Listing(g, m.alias, es, split) && UniqueActive(g)
    ensures UniqueActive(Rewritten(g, m, es))
  {
    ListingHoldsAll(g, m, es, split);
    UniqueMeansNoDuplicates(g);
    UniqueMeansNoDuplicates(Rewritten(g, m, es));
    forall r, q
      ensures !Duplicates(Rewritten(g, m, es), r, q)
    {
      if Duplicates(Rewritten(g, m, es), r, q) {
        MergeAddsNoDuplicate(g, m, es, r, q);
      }
    }
  }

  // Conservation.

  ghost function Collapsing(g: Graph, m: Merge): set<Uuid> {
    set rn | rn in g.edges && Collapses(g, m, rn)
  }

  ghost function Moving(g: Graph, m: Merge): set<Uuid> {
    set rn | rn in g.edges && Affected(g, m, rn) && !Collapses(g, m, rn)
  }

  /** Only an edge from the alias to itself is listed twice. */
  ghost predicate OnlyLoopsRepeat(es: seq<FullEdge>) {
    forall i, j :: 0 <= i < j < |es| && es[j].src != es[j].dst ==> es[i].uuid != es[j].uuid
  }

  lemma SameHalfDistinct(g: Graph, alias: Uuid, es: seq<FullEdge>, split: nat, i: nat, j: nat)
    requires Listing(g, alias, es, split) && i < j < |es| && (j < split || split <= i)
    ensures es[i].uuid != es[j].uuid
  {
    if j < split {
      assert es[..split][i] == es[i] && es[..split][j] == es[j];
    } else {
      assert es[split..][i - split] == es[i] && es[split..][j - split] == es[j];
    }
  }

  lemma ListingRepeatsOnlyLoops(g: Graph, m: Merge, es: seq<FullEdge>, split: nat)
    requires Listing(g, m.alias, es, split)
    ensures OnlyLoopsRepeat(es)
  {
    forall i, j | 0 <= i < j < |es| && es[j].src != es[j].dst
      ensures es[i].uuid != es[j].uuid
    {
      if j < split || split <= i {
        SameHalfDistinct(g, m.alias, es, split, i, j);
      } else {
        assert es[..split][i] == es[i] && es[split..][j - split] == es[j];
        assert g.Hop(es[i].uuid, Src) == Some(m.alias) && g.Hop(es[j].uuid, Dst) == Some(m.alias);
      }
    }
  }

  lemma NotVisitedBefore(es: seq<FullEdge>)
    requires es != [] && OnlyLoopsRepeat(es)
    requires es[|es| - 1].src != es[|es| - 1].dst
    ensures es[|es| - 1].uuid !in Visited(es[..|es| - 1])
  {
    var front := es[..|es| - 1];
    forall e <- front
      ensures e.uuid != es[|es| - 1].uuid
    {
      var i :| 0 <= i < |front| && front[i] == e;
      assert es[i] == e;
    }
  }

  lemma InvalidateActive(g: Graph, rn: Uuid, ts: Timestamp)
    ensures g.Invalidate(rn, ts).ActiveEdges() == g.ActiveEdges() - {rn}
  {
  }

  lemma InsertActive(g: Graph, row: Edge, a: Uuid, b: Uuid)
    requires WellFormed(g) && row.invalidAt.None?
    ensures g.InsertEdge(row, a, b).ActiveEdges() == g.ActiveEdges() + {g.next}
    ensures g.next !in g.ActiveEdges()
  {
  }

  /** Every visited affected edge is rewritten, deduplicated or collapsed, exactly once; only a
    * rewrite leaves the number of active edges as it was. */
  ghost predicate Balance(
      before: nat, after: nat, c: Counts, collapsed: nat, moved: nat)
  {
    after + c.deduped + collapsed == before && c.rewritten + c.deduped == moved
  }

  ghost predicate Balanced(g: Graph, m: Merge, es: seq<FullEdge>) {
    Balance(|g.ActiveEdges()|, |Rewritten(g, m, es).ActiveEdges()|, RealCounts(g, m, es),
            |Visited(es) * Collapsing(g, m)|, |Visited(es) * Moving(g, m)|)
  }

  /** One more visited row that belongs to neither part, or was there already. */
  lemma SamePart(done: set<Uuid>, part: set<Uuid>, rn: Uuid)
    requires rn !in part || rn in done
    ensures (done + {rn}) * part == done * part
  {
  }

  lemma OneMore(done: set<Uuid>, part: set<Uuid>, rn: Uuid)
    requires rn in part && rn !in done
    ensures |(done + {rn}) * part| == |done * part| + 1
  {
    assert (done + {rn}) * part == done * part + {rn};
  }

  lemma {:induction false} RewriteBalances(g: Graph, m: Merge, es: seq<FullEdge>)
    requires Sound(g, m) && OnlyLoopsRepeat(es)
    requires forall i :: 0 <= i < |es| ==> Candidate(g, m, es[i])
    ensures Balanced(g, m, es)
  {
    if es == [] {
      assert Visited(es) == {};
    } else {
      var front, e := es[..|es| - 1], es[|es| - 1];
      RewriteBalances(g, m, front);
      RewriteProgresses(g, m, front);
      VisitedStep(es);
      if Affected(g, m, e.uuid) && !Collapses(g, m, e.uuid) {
        NotVisitedBefore(es);
      }
      BalanceStep(g, m, Visited(front), Rewritten(g, m, front), e, RealCounts(g, m, front));
    }
  }

  /** Which part the visited row belongs to, and whether it is still active, by branch. */
  lemma BranchFacts(g: Graph, m: Merge, done: set<Uuid>, gi: Graph, e: FullEdge)
    requires Sound(g, m) && Progress(g, m, done, gi) && Candidate(g, m, e)
    ensures var d, rn := Decide(gi, m, e), e.uuid;
            && (d in {SkipInvalid, SkipForeign} ==> rn !in Collapsing(g, m) && rn !in Moving(g, m))
            && (d == DropSelfLoop ==> rn in Collapsing(g, m) && rn !in Moving(g, m))
            && (d in {Deduplicate, Rewrite} ==> rn in Moving(g, m) && rn !in Collapsing(g, m))
            && (rn in Collapsing(g, m) + Moving(g, m) ==> (rn in gi.ActiveEdges() <==> rn !in done))
  {
    assert OldRowKept(g, m, done, gi, e.uuid);
  }

  /** The number of active edges after one visit. */
  lemma ActiveAfter(gi: Graph, m: Merge, e: FullEdge)
    requires WellFormed(gi)
    ensures var before, after := gi.ActiveEdges(), Apply(gi, m, e).ActiveEdges();
            match Decide(gi, m, e)
            case SkipInvalid | SkipForeign => after == before
            case DropSelfLoop | Deduplicate => |after| == if e.uuid in before then |before| - 1 else |before|
            case Rewrite => e.uuid in before ==> |after| == |before|
  {
    match Decide(gi, m, e)
    case SkipInvalid | SkipForeign =>
    case DropSelfLoop | Deduplicate =>
      InvalidateActive(gi, e.uuid, m.ts);
      if e.uuid !in gi.ActiveEdges() {
        assert gi.ActiveEdges() - {e.uuid} == gi.ActiveEdges();
      }
    case Rewrite =>
      var row, a, b := e.row.(invalidAt := None), Redirect(m, e.src), Redirect(m, e.dst);
      InsertActive(gi, row, a, b);
      InvalidateActive(gi.InsertEdge(row, a, b), e.uuid, m.ts);
  }

  lemma BalanceStep(g: Graph, m: Merge, done: set<Uuid>, gi: Graph, e: FullEdge, c: Counts)
    requires Sound(g, m) && Progress(g, m, done, gi) && Candidate(g, m, e)
    requires Affected(g, m, e.uuid) && !Collapses(g, m, e.uuid) ==> e.uuid !in done
    requires Balance(|g.ActiveEdges()|, |gi.ActiveEdges()|, c, |done * Collapsing(g, m)|, |done * Moving(g, m)|)
    ensures Balance(|g.ActiveEdges()|, |Apply(gi, m, e).ActiveEdges()|, Count(c, Decide(gi, m, e)),
                    |(done + {e.uuid}) * Collapsing(g, m)|, |(done + {e.uuid}) * Moving(g, m)|)
  {
    BranchFacts(g, m, done, gi, e);
    ActiveAfter(gi, m, e);
    BalanceArithmetic(|g.ActiveEdges()|, gi.ActiveEdges(), |Apply(gi, m, e).ActiveEdges()|, c,
                      Decide(gi, m, e), done, Collapsing(g, m), Moving(g, m), e.uuid);
  }

  lemma BalanceArithmetic(
      before: nat, active: set<Uuid>, after: nat, c: Counts, d: Action,
      done: set<Uuid>, collapsing: set<Uuid>, moving: set<Uuid>, rn: Uuid)
    requires Balance(before, |active|, c, |done * collapsing|, |done * moving|)
    requires d in {SkipInvalid, SkipForeign} ==> rn !in collapsing && rn !in moving && after == |active|
    requires d == DropSelfLoop ==> rn in collapsing && rn !in moving
    requires d in {Deduplicate, Rewrite} ==> rn in moving && rn !in collapsing && rn !in done
    requires rn in collapsing + moving ==> (rn in active <==> rn !in done)
    requires d in {DropSelfLoop, Deduplicate} ==> after == if rn in active then |active| - 1 else |active|
    requires d == Rewrite && rn in active ==> after == |active|
    ensures Balance(before, after, Count(c, d), |(done + {rn}) * collapsing|, |(done + {rn}) * moving|)
  {
    if rn in collapsing && rn !in done {
      OneMore(done, collapsing, rn);
    } else {
      SamePart(done, collapsing, rn);
    }
    if rn in moving && rn !in done {
      OneMore(done, moving, rn);
    } else {
      SamePart(done, moving, rn);
    }
  }

  lemma AllVisited(g: Graph, m: Merge, done: set<Uuid>)
    requires forall rn :: Affected(g, m, rn) ==> rn in done
    ensures done * Collapsing(g, m) == Collapsing(g, m)
    ensures done * Moving(g, m) == Moving(g, m)
  {
  }

  /** The active edges lost are exactly the deduplicated ones and the collapsed self-loops, and
    * every affected edge that does not collapse is counted once. */
  lemma MergeConservesEdges(g: Graph, m: Merge, es: seq<FullEdge>, split: nat)
    requires Sound(g, m) && Listing(g, m.alias, es, split)
    ensures var c := RealCounts(g, m, es);
            && |Rewritten(g, m, es).ActiveEdges()| == |g.ActiveEdges()| - c.deduped - |Collapsing(g, m)|
            && c.rewritten + c.deduped == |Moving(g, m)|
  {
    ListingHoldsAll(g, m, es, split);
    ListingRepeatsOnlyLoops(g, m, es, split);
    RewriteBalances(g, m, es);
    AllVisited(g, m, Visited(es));
  }

  // The dry run.

  /** Two affected edges that state the same fact, which the canonical does not state yet. */
  ghost predicate Twins(g: Graph, m: Merge, r: Uuid, q: Uuid) {
    && Duplicates(g, r, q)
    && Affected(g, m, r) && Affected(g, m, q)
    && !Collapses(g, m, r)
    && !StillStated(g, m, g, r)
  }

  ghost predicate TwinFree(g: Graph, m: Merge) {
    forall r, q :: !Twins(g, m, r, q)
  }

  /** Redirection is injective on the ends of affected edges that do not collapse. */
  lemma SameRedirectSameEnds(g: Graph, m: Merge, r: Uuid, q: Uuid)
    requires m.canonical != m.alias
    requires Affected(g, m, r) && Affected(g, m, q) && !Collapses(g, m, r)
    requires Redirect(m, g.src[r]) == Redirect(m, g.src[q])
    requires Redirect(m, g.dst[r]) == Redirect(m, g.dst[q])
    ensures g.src[r] == g.src[q] && g.dst[r] == g.dst[q]
  {
  }

  /** A restated duplicate of `e` among the visited rows. */
  ghost predicate TwinVisited(g: Graph, m: Merge, done: set<Uuid>, e: Uuid) {
    exists r :: r in done && Affected(g, m, r) && Duplicates(g, r, e)
  }

  /** What a later duplicate check finds was there before, or is a fact this run restated. */
  lemma LaterCheckFinds(g: Graph, m: Merge, done: set<Uuid>, gi: Graph, e: Uuid)
    requires Sound(g, m) && Progress(g, m, done, gi)
    requires Affected(g, m, e) && !Collapses(g, m, e) && e !in done
    requires StillStated(g, m, gi, e)
    ensures StillStated(g, m, g, e) || TwinVisited(g, m, done, e)
  {
    var a, b, name := Redirect(m, g.src[e]), Redirect(m, g.dst[e]), g.edges[e].name;
    var q :| q in gi.edges && gi.Links(q, a, b, name, m.group);
    assert OldRowKept(g, m, done, gi, q) && NewRowRestates(g, m, done, gi, q);
    if q in g.edges {
      assert g.Links(q, a, b, name, m.group);
    } else {
      var r :| Affected(g, m, r) && !Collapses(g, m, r) && r in done && Restates(g, m, r, gi, q);
      SameRedirectSameEnds(g, m, r, e);
      assert Duplicates(g, r, e);
    }
  }

  lemma LaterCheckSees(g: Graph, m: Merge, done: set<Uuid>, gi: Graph, e: Uuid)
    requires Sound(g, m) && Progress(g, m, done, gi)
    requires Affected(g, m, e) && !Collapses(g, m, e)
    requires StillStated(g, m, g, e) || TwinVisited(g, m, done, e)
    ensures StillStated(g, m, gi, e)
  {
    var a, b, name := Redirect(m, g.src[e]), Redirect(m, g.dst[e]), g.edges[e].name;
    if StillStated(g, m, g, e) {
      var q :| q in g.edges && g.Links(q, a, b, name, m.group);
      assert OldRowKept(g, m, done, gi, q);
      assert gi.Links(q, a, b, name, m.group);
    } else {
      var r :| r in done && Affected(g, m, r) && Duplicates(g, r, e);
      assert FactSurvives(g, m, done, gi, r);
    }
  }

  ghost predicate TwinsIn(g: Graph, m: Merge, done: set<Uuid>) {
    exists r, q :: r in done && q in done && Twins(g, m, r, q)
  }

  /** A dry run never counts more duplicates than the real run, counts the same foreign edges, and
    * differs exactly when twins have been visited. */
  ghost predicate Predicts(live: Counts, dry: Counts, twins: bool) {
    && live.rewritten + live.deduped == dry.rewritten + dry.deduped
    && live.foreignSkipped == dry.foreignSkipped
    && live.deduped >= dry.deduped
    && (live.deduped > dry.deduped <==> twins)
  }

  /** The two runs branch alike except at a fact that only this run has restated. */
  ghost predicate BranchesAgree(live: Action, dry: Action, twin: bool) {
    if live == dry then !twin else live == Deduplicate && dry == Rewrite && twin
  }

  lemma {:induction false} DryRunTracksRealRun(g: Graph, m: Merge, es: seq<FullEdge>)
    requires Sound(g, m) && OnlyLoopsRepeat(es)
    requires forall i :: 0 <= i < |es| ==> Candidate(g, m, es[i])
    ensures Predicts(RealCounts(g, m, es), DryCounts(g, m, es), TwinsIn(g, m, Visited(es)))
  {
    if es != [] {
      var front, e := es[..|es| - 1], es[|es| - 1];
      DryRunTracksRealRun(g, m, front);
      var twin := DryRunVisit(g, m, es);
      PredictsStep(RealCounts(g, m, front), DryCounts(g, m, front), TwinsIn(g, m, Visited(front)),
                   Decide(Rewritten(g, m, front), m, e), Decide(g, m, e), twin);
    }
  }

  lemma PredictsStep(live: Counts, dry: Counts, twins: bool, a: Action, b: Action, twin: bool)
    requires Predicts(live, dry, twins) && BranchesAgree(a, b, twin)
    ensures Predicts(Count(live, a), Count(dry, b), twins || twin)
  {
  }

  lemma DryRunVisit(g: Graph, m: Merge, es: seq<FullEdge>) returns (twin: bool)
    requires Sound(g, m) && OnlyLoopsRepeat(es) && es != []
    requires forall i :: 0 <= i < |es| ==> Candidate(g, m, es[i])
    ensures var front, e := es[..|es| - 1], es[|es| - 1];
            && BranchesAgree(Decide(Rewritten(g, m, front), m, e), Decide(g, m, e), twin)
            && (TwinsIn(g, m, Visited(es)) <==> TwinsIn(g, m, Visited(front)) || twin)
  {
    var front, e := es[..|es| - 1], es[|es| - 1];
    RewriteProgresses(g, m, front);
    VisitedStep(es);
    if e.src != e.dst {
      NotVisitedBefore(es);
    }
    twin := DryRunStep(g, m, Visited(front), Rewritten(g, m, front), e);
  }

  lemma DryRunStep(g: Graph, m: Merge, done: set<Uuid>, gi: Graph, e: FullEdge) returns (twin: bool)
    requires Sound(g, m) && Progress(g, m, done, gi) && Candidate(g, m, e)
    requires Affected(g, m, e.uuid) && !Collapses(g, m, e.uuid) ==> e.uuid !in done
    ensures BranchesAgree(Decide(gi, m, e), Decide(g, m, e), twin)
    ensures TwinsIn(g, m, done + {e.uuid}) <==> TwinsIn(g, m, done) || twin
  {
    if Affected(g, m, e.uuid) && !Collapses(g, m, e.uuid) {
      twin := !StillStated(g, m, g, e.uuid) && TwinVisited(g, m, done, e.uuid);
      TwinsOfLast(g, m, done, e.uuid);
      if StillStated(g, m, gi, e.uuid) {
        LaterCheckFinds(g, m, done, gi, e.uuid);
      }
      if StillStated(g, m, g, e.uuid) || TwinVisited(g, m, done, e.uuid) {
        LaterCheckSees(g, m, done, gi, e.uuid);
      }
    } else {
      twin := false;
      NoTwinsAdded(g, m, done, e.uuid);
    }
  }

  lemma NoTwinsAdded(g: Graph, m: Merge, done: set<Uuid>, e: Uuid)
    requires Sound(g, m) && (!Affected(g, m, e) || Collapses(g, m, e))
    ensures TwinsIn(g, m, done + {e}) <==> TwinsIn(g, m, done)
  {
    if r, q :| r in done + {e} && q in done + {e} && Twins(g, m, r, q) {
      assert r in done && q in done;
    }
  }

  /** Twins among the visited rows plus one more: twins before, or the last row is one of them. */
  lemma TwinsOfLast(g: Graph, m: Merge, done: set<Uuid>, e: Uuid)
    requires Sound(g, m) && Affected(g, m, e) && !Collapses(g, m, e) && e !in done
    ensures TwinsIn(g, m, done + {e})
            <==> TwinsIn(g, m, done) || (!StillStated(g, m, g, e) && TwinVisited(g, m, done, e))
  {
    if r, q :| r in done + {e} && q in done + {e} && Twins(g, m, r, q) {
      if r == e {
        assert Duplicates(g, q, e);
      } else if q == e {
        assert Duplicates(g, r, e);
      }
    }
    if r :| r in done && Affected(g, m, r) && Duplicates(g, r, e) && !StillStated(g, m, g, e) {
      assert Twins(g, m, r, e);
    }
  }

  /** For one alias, the dry run's counts are the real run's counts exactly when no two affected
    * edges state the same fact anew. */
  lemma DryRunIsExactIffTwinFree(g: Graph, m: Merge, es: seq<FullEdge>, split: nat)
    requires Sound(g, m) && Listing(g, m.alias, es, split)
    ensures DryCounts(g, m, es) == RealCounts(g, m, es) <==> TwinFree(g, m)
  {
    ListingHoldsAll(g, m, es, split);
    ListingRepeatsOnlyLoops(g, m, es, split);
    DryRunTracksRealRun(g, m, es);
  }

  lemma DryRunIsExactWhenUnique(g: Graph, m: Merge, es: seq<FullEdge>, split: nat)
    requires Sound(g, m) && Listing(g, m.alias, es, split) && UniqueActive(g)
    ensures DryCounts(g, m, es) == RealCounts(g, m, es)
  {
    UniqueMeansNoDuplicates(g);
    DryRunIsExactIffTwinFree(g, m, es, split);
  }
}
