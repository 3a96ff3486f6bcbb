/** The edge rewrite of one alias -> canonical merge: what it does to each edge, what it keeps,
  * what it counts, and when its dry run predicts the real run. */
module MergeEdges {
  import opened Common
  import opened PropertyGraph
  import opened Store

  datatype Merge = Merge(canonical: Uuid, alias: Uuid, group: GroupId, ts: Timestamp)

  datatype Counts = Counts(rewritten: nat, deduped: nat, foreignSkipped: nat)

  const ZERO := Counts(0, 0, 0)

  datatype Action = SkipInvalid | SkipForeign | DropSelfLoop | Deduplicate | Rewrite

  /** An endpoint with the alias replaced by the canonical. */
  function Redirect(m: Merge, u: Uuid): Uuid {
    if u == m.alias then m.canonical else u
  }

  /** The branch the loop takes for the snapshot `e` when the graph is `g`. */
  function Decide(g: Graph, m: Merge, e: FullEdge): Action {
    if e.row.invalidAt.Some? then SkipInvalid
    else if e.row.group != m.group then SkipForeign
    else if Redirect(m, e.src) == Redirect(m, e.dst) then DropSelfLoop
    else if g.HasDirectedEdge(Redirect(m, e.src), Redirect(m, e.dst), e.row.name, e.row.group) then Deduplicate
    else Rewrite
  }

  function Apply(g: Graph, m: Merge, e: FullEdge): Graph {
    match Decide(g, m, e)
    case SkipInvalid | SkipForeign => g
    case DropSelfLoop | Deduplicate => g.Invalidate(e.uuid, m.ts)
    case Rewrite =>
      g.InsertEdge(e.row.(invalidAt := None), Redirect(m, e.src), Redirect(m, e.dst)).Invalidate(e.uuid, m.ts)
  }

  function Count(c: Counts, a: Action): Counts {
    match a
    case SkipInvalid | DropSelfLoop => c
    case SkipForeign => c.(foreignSkipped := c.foreignSkipped + 1)
    case Deduplicate => c.(deduped := c.deduped + 1)
    case Rewrite => c.(rewritten := c.rewritten + 1)
  }

  /** The graph after the first rows of the listing. */
  function Rewritten(g: Graph, m: Merge, es: seq<FullEdge>): Graph {
    if es == [] then g
    else Apply(Rewritten(g, m, es[..|es| - 1]), m, es[|es| - 1])
  }

  /** The counts of a real run, which sees its own earlier writes. */
  function RealCounts(g: Graph, m: Merge, es: seq<FullEdge>): Counts {
    if es == [] then ZERO
    else
      var front := es[..|es| - 1];
      Count(RealCounts(g, m, front), Decide(Rewritten(g, m, front), m, es[|es| - 1]))
  }

  /** The counts of a dry run, which asks every question of the unchanged graph. */
  function DryCounts(g: Graph, m: Merge, es: seq<FullEdge>): Counts {
    if es == [] then ZERO
    else Count(DryCounts(g, m, es[..|es| - 1]), Decide(g, m, es[|es| - 1]))
  }

  /** One row of the listing: the branch taken, and, unless this is a dry run, what it writes. */
  method VisitEdge(db: Db, m: Merge, e: FullEdge, dryRun: bool) returns (action: Action)
    modifies db`edges, db`src, db`dst, db`direct, db`next, db`mutations
    ensures action == Decide(old(db.View()), m, e)
    ensures db.View() == if dryRun then old(db.View()) else Apply(old(db.View()), m, e)
  {
    if e.row.invalidAt.Some? {
      return SkipInvalid;
    }
    if e.row.group != m.group {
      return SkipForeign;
    }
    var newSrc := if e.src == m.alias then m.canonical else e.src;
    var newDst := if e.dst == m.alias then m.canonical else e.dst;
    if newSrc == newDst {
      if !dryRun {
        db.InvalidateEdge(e.uuid, m.ts);
      }
      return DropSelfLoop;
    }
    if db.View().HasDirectedEdge(newSrc, newDst, e.row.name, e.row.group) {
      if !dryRun {
        db.InvalidateEdge(e.uuid, m.ts);
      }
      return Deduplicate;
    }
    if !dryRun {
      var _ := db.InsertRelatesToEdge(e.row.(invalidAt := None), newSrc, newDst);
      db.InvalidateEdge(e.uuid, m.ts);
    }
    action := Rewrite;
  }

  /** `merge_entities_inner`. */
  method MergeEntitiesInner(db: Db, m: Merge, dryRun: bool)
    returns (counts: Counts, ghost rows: seq<FullEdge>, ghost split: nat)
    modifies db`edges, db`src, db`dst, db`direct, db`next, db`mutations
    ensures Listing(old(db.View()), m.alias, rows, split)
    ensures dryRun ==> db.View() == old(db.View()) && counts == DryCounts(old(db.View()), m, rows)
    ensures !dryRun ==> && db.View() == Rewritten(old(db.View()), m, rows)
                        && counts == RealCounts(old(db.View()), m, rows)
  {
    var edges, at := db.GetFullEdgesForEntity(m.alias);
    rows, split := edges, at;
    counts := ZERO;
    ghost var g := db.View();
    for i := 0 to |edges|
      invariant dryRun ==> db.View() == g && counts == DryCounts(g, m, edges[..i])
      invariant !dryRun ==> db.View() == Rewritten(g, m, edges[..i]) && counts == RealCounts(g, m, edges[..i])
    {
      assert edges[..i + 1][..i] == edges[..i];
      var action := VisitEdge(db, m, edges[i], dryRun);
      counts := Count(counts, action);
    }
    assert edges[..|edges|] == edges;
  }

  // What the rewrite keeps.

  /** A merge whose ends are different live rows. */
  ghost predicate Sound(g: Graph, m: Merge) {
    WellFormed(g) && m.canonical in g.entities && m.alias in g.entities && m.canonical != m.alias
  }

  /** An active edge of the merging group with both hops bound that touches the alias. */
  ghost predicate Affected(g: Graph, m: Merge, rn: Uuid) {
    && g.Active(rn) && g.Complete(rn)
    && g.edges[rn].group == m.group
    && (g.src[rn] == m.alias || g.dst[rn] == m.alias)
  }

  ghost predicate Collapses(g: Graph, m: Merge, rn: Uuid) {
    Affected(g, m, rn) && Redirect(m, g.src[rn]) == Redirect(m, g.dst[rn])
  }

  /** `q` is `rn` with its ends redirected: same name, group, pointers and body. */
  ghost predicate Restates(g0: Graph, m: Merge, rn: Uuid, g: Graph, q: Uuid) {
    && rn in g0.edges && g0.Complete(rn) && q in g.edges
    && g.edges[q] == g0.edges[rn].(invalidAt := None)
    && g.Hop(q, Src) == Some(Redirect(m, g0.src[rn]))
    && g.Hop(q, Dst) == Some(Redirect(m, g0.dst[rn]))
  }

  /** The row as the merge leaves it: invalidated when it is affected and has been visited. */
  ghost predicate OldRowKept(g0: Graph, m: Merge, done: set<Uuid>, g: Graph, rn: Uuid) {
    rn in g0.edges ==>
      && rn in g.edges
      && g.Hop(rn, Src) == g0.Hop(rn, Src) && g.Hop(rn, Dst) == g0.Hop(rn, Dst)
      && g.edges[rn] == if Affected(g0, m, rn) && rn in done
                        then g0.edges[rn].(invalidAt := Some(m.ts)) else g0.edges[rn]
  }

  /** A new row restates some visited affected row that does not collapse. */
  ghost predicate NewRowRestates(g0: Graph, m: Merge, done: set<Uuid>, g: Graph, q: Uuid) {
    q in g.edges && q !in g0.edges ==>
      exists rn :: Affected(g0, m, rn) && !Collapses(g0, m, rn) && rn in done && Restates(g0, m, rn, g, q)
  }

  /** The redirected form of `rn` is stated by an active row. */
  ghost predicate StillStated(g0: Graph, m: Merge, g: Graph, rn: Uuid)
    requires rn in g0.edges && g0.Complete(rn)
  {
    g.HasDirectedEdge(Redirect(m, g0.src[rn]), Redirect(m, g0.dst[rn]), g0.edges[rn].name, m.group)
  }

  ghost predicate FactSurvives(g0: Graph, m: Merge, done: set<Uuid>, g: Graph, rn: Uuid) {
    Affected(g0, m, rn) && !Collapses(g0, m, rn) && rn in done ==> StillStated(g0, m, g, rn)
  }

  ghost predicate Progress(g0: Graph, m: Merge, done: set<Uuid>, g: Graph) {
    && WellFormed(g)
    && g.entities == g0.entities && g.positions == g0.positions && g0.next <= g.next
    && (forall rn :: OldRowKept(g0, m, done, g, rn))
    && (forall q :: NewRowRestates(g0, m, done, g, q))
    && (forall rn :: FactSurvives(g0, m, done, g, rn))
  }

  /** The snapshot is of the starting graph and touches the alias. */
  ghost predicate Candidate(g0: Graph, m: Merge, e: FullEdge) {
    Snapshot(g0, e) && (e.src == m.alias || e.dst == m.alias)
  }

  lemma InvalidateKeepsWellFormed(g: Graph, rn: Uuid, ts: Timestamp)
    requires WellFormed(g)
    ensures WellFormed(g.Invalidate(rn, ts))
  {
    forall r
      ensures DirectSynced(g.Invalidate(rn, ts), r)
    {
      assert DirectSynced(g, r);
    }
  }

  lemma InsertKeepsWellFormed(g: Graph, row: Edge, a: Uuid, b: Uuid)
    requires WellFormed(g)
    ensures WellFormed(g.InsertEdge(row, a, b))
  {
    forall r
      ensures DirectSynced(g.InsertEdge(row, a, b), r)
    {
      assert DirectSynced(g, r);
    }
  }

  /** Invalidating a row that touches the alias leaves every redirected fact stated. */
  lemma InvalidateKeepsFacts(g0: Graph, m: Merge, g: Graph, gone: Uuid, rn: Uuid)
    requires Sound(g0, m) && Affected(g0, m, rn)
    requires g.Complete(gone) && (g.src[gone] == m.alias || g.dst[gone] == m.alias)
    requires StillStated(g0, m, g, rn)
    ensures StillStated(g0, m, g.Invalidate(gone, m.ts), rn)
  {
    var a, b, name := Redirect(m, g0.src[rn]), Redirect(m, g0.dst[rn]), g0.edges[rn].name;
    var q :| q in g.edges && g.Links(q, a, b, name, m.group);
    assert g.Invalidate(gone, m.ts).Links(q, a, b, name, m.group);
  }

  /** Visiting an affected row whose redirected form is already stated, or that collapses. */
  lemma InvalidateStep(g0: Graph, m: Merge, done: set<Uuid>, g: Graph, rn: Uuid)
    requires Sound(g0, m) && Progress(g0, m, done, g) && Affected(g0, m, rn)
    requires Collapses(g0, m, rn) || StillStated(g0, m, g, rn)
    ensures Progress(g0, m, done + {rn}, g.Invalidate(rn, m.ts))
  {
    var g', done' := g.Invalidate(rn, m.ts), done + {rn};
    assert OldRowKept(g0, m, done, g, rn);
    InvalidateKeepsWellFormed(g, rn, m.ts);
    forall r
      ensures OldRowKept(g0, m, done', g', r)
    {
      assert OldRowKept(g0, m, done, g, r);
    }
    forall q
      ensures NewRowRestates(g0, m, done', g', q)
    {
      assert NewRowRestates(g0, m, done, g, q);
      if q in g.edges && q !in g0.edges {
        var r :| Affected(g0, m, r) && !Collapses(g0, m, r) && r in done && Restates(g0, m, r, g, q);
        assert Restates(g0, m, r, g', q);
      }
    }
    forall r
      ensures FactSurvives(g0, m, done', g', r)
    {
      assert FactSurvives(g0, m, done, g, r);
      if Affected(g0, m, r) && !Collapses(g0, m, r) && r in done' {
        InvalidateKeepsFacts(g0, m, g, rn, r);
      }
    }
  }

  /** The graph with the redirected form of an affected row inserted. */
  function Inserted(g0: Graph, m: Merge, g: Graph, rn: Uuid): Graph
    requires rn in g0.edges && g0.Complete(rn)
  {
    g.InsertEdge(g0.edges[rn].(invalidAt := None), Redirect(m, g0.src[rn]), Redirect(m, g0.dst[rn]))
  }

  lemma InsertKeepsOldRows(g0: Graph, m: Merge, done: set<Uuid>, g: Graph, rn: Uuid, r: Uuid)
    requires Sound(g0, m) && WellFormed(g) && Affected(g0, m, rn) && OldRowKept(g0, m, done, g, r)
    ensures OldRowKept(g0, m, done, Inserted(g0, m, g, rn), r)
  {
  }

  lemma InsertRestates(g0: Graph, m: Merge, done: set<Uuid>, g: Graph, rn: Uuid, q: Uuid)
    requires Sound(g0, m) && WellFormed(g) && g.entities == g0.entities
    requires Affected(g0, m, rn) && !Collapses(g0, m, rn) && NewRowRestates(g0, m, done, g, q)
    ensures NewRowRestates(g0, m, done + {rn}, Inserted(g0, m, g, rn), q)
  {
    var g1 := Inserted(g0, m, g, rn);
    if q == g.next {
      assert Restates(g0, m, rn, g1, q);
    } else if q in g.edges && q !in g0.edges {
      var r :| Affected(g0, m, r) && !Collapses(g0, m, r) && r in done && Restates(g0, m, r, g, q);
      assert Restates(g0, m, r, g1, q);
    }
  }

  lemma InsertKeepsFacts(g0: Graph, m: Merge, done: set<Uuid>, g: Graph, rn: Uuid, r: Uuid)
    requires Sound(g0, m) && WellFormed(g) && Affected(g0, m, rn) && FactSurvives(g0, m, done, g, r)
    ensures FactSurvives(g0, m, done, Inserted(g0, m, g, rn), r)
  {
    if Affected(g0, m, r) && !Collapses(g0, m, r) && r in done {
      var a, b, name := Redirect(m, g0.src[r]), Redirect(m, g0.dst[r]), g0.edges[r].name;
      var q :| q in g.edges && g.Links(q, a, b, name, m.group);
      assert Inserted(g0, m, g, rn).Links(q, a, b, name, m.group);
    }
  }

  /** Inserting the redirected form of an affected row, which is then stated. */
  lemma InsertStep(g0: Graph, m: Merge, done: set<Uuid>, g: Graph, rn: Uuid)
    requires Sound(g0, m) && Progress(g0, m, done, g) && Affected(g0, m, rn) && !Collapses(g0, m, rn)
    ensures var g1 := Inserted(g0, m, g, rn);
            && WellFormed(g1)
            && g1.entities == g0.entities && g1.positions == g0.positions && g0.next <= g1.next
            && (forall r :: OldRowKept(g0, m, done, g1, r))
            && (forall q :: NewRowRestates(g0, m, done + {rn}, g1, q))
            && (forall r :: FactSurvives(g0, m, done, g1, r))
            && StillStated(g0, m, g1, rn)
  {
    var a, b, row := Redirect(m, g0.src[rn]), Redirect(m, g0.dst[rn]), g0.edges[rn].(invalidAt := None);
    var g1 := Inserted(g0, m, g, rn);
    InsertKeepsWellFormed(g, row, a, b);
    assert g1.Links(g.next, a, b, row.name, m.group);
    forall r
      ensures OldRowKept(g0, m, done, g1, r)
    {
      assert OldRowKept(g0, m, done, g, r);
      InsertKeepsOldRows(g0, m, done, g, rn, r);
    }
    forall q
      ensures NewRowRestates(g0, m, done + {rn}, g1, q)
    {
      assert NewRowRestates(g0, m, done, g, q);
      InsertRestates(g0, m, done, g, rn, q);
    }
    forall r
      ensures FactSurvives(g0, m, done, g1, r)
    {
      assert FactSurvives(g0, m, done, g, r);
      InsertKeepsFacts(g0, m, done, g, rn, r);
    }
  }

  lemma RewriteStep(g0: Graph, m: Merge, done: set<Uuid>, g: Graph, rn: Uuid)
    requires Sound(g0, m) && Progress(g0, m, done, g) && Affected(g0, m, rn) && !Collapses(g0, m, rn)
    ensures var g1 := Inserted(g0, m, g, rn);
            Progress(g0, m, done + {rn}, g1.Invalidate(rn, m.ts))
  {
    InsertStep(g0, m, done, g, rn);
    var g1 := Inserted(g0, m, g, rn);
    var g', done' := g1.Invalidate(rn, m.ts), done + {rn};
    assert OldRowKept(g0, m, done, g1, rn);
    InvalidateKeepsWellFormed(g1, rn, m.ts);
    forall r
      ensures OldRowKept(g0, m, done', g', r)
    {
      assert OldRowKept(g0, m, done, g1, r);
    }
    forall q
      ensures NewRowRestates(g0, m, done', g', q)
    {
      assert NewRowRestates(g0, m, done', g1, q);
      if q in g1.edges && q !in g0.edges {
        var r :| Affected(g0, m, r) && !Collapses(g0, m, r) && r in done' && Restates(g0, m, r, g1, q);
        assert Restates(g0, m, r, g', q);
      }
    }
    forall r
      ensures FactSurvives(g0, m, done', g', r)
    {
      assert FactSurvives(g0, m, done, g1, r);
      if Affected(g0, m, r) && !Collapses(g0, m, r) && r in done' {
        InvalidateKeepsFacts(g0, m, g1, rn, r);
      }
    }
  }

  /** A row that is not affected changes nothing when it is visited. */
  lemma SkipStep(g0: Graph, m: Merge, done: set<Uuid>, g: Graph, rn: Uuid)
    requires Progress(g0, m, done, g) && !Affected(g0, m, rn)
    ensures Progress(g0, m, done + {rn}, g)
  {
    forall r
      ensures OldRowKept(g0, m, done + {rn}, g, r)
    {
      assert OldRowKept(g0, m, done, g, r);
    }
    forall q
      ensures NewRowRestates(g0, m, done + {rn}, g, q)
    {
      assert NewRowRestates(g0, m, done, g, q);
    }
    forall r
      ensures FactSurvives(g0, m, done + {rn}, g, r)
    {
      assert FactSurvives(g0, m, done, g, r);
    }
  }

  function Visited(es: seq<FullEdge>): set<Uuid> {
    set e | e in es :: e.uuid
  }

  lemma VisitedStep(es: seq<FullEdge>)
    requires es != []
    ensures Visited(es) == Visited(es[..|es| - 1]) + {es[|es| - 1].uuid}
  {
    assert es == es[..|es| - 1] + [es[|es| - 1]];
  }

  lemma {:induction false} RewriteProgresses(g0: Graph, m: Merge, es: seq<FullEdge>)
    requires Sound(g0, m)
    requires forall i :: 0 <= i < |es| ==> Candidate(g0, m, es[i])
    ensures Progress(g0, m, Visited(es), Rewritten(g0, m, es))
  {
    if es == [] {
      NothingVisited(g0, m);
    } else {
      var front, e := es[..|es| - 1], es[|es| - 1];
      RewriteProgresses(g0, m, front);
      VisitedStep(es);
      var g, done := Rewritten(g0, m, front), Visited(front);
      match Decide(g, m, e)
      case SkipInvalid | SkipForeign => SkipStep(g0, m, done, g, e.uuid);
      case DropSelfLoop | Deduplicate => InvalidateStep(g0, m, done, g, e.uuid);
      case Rewrite => RewriteStep(g0, m, done, g, e.uuid);
    }
  }

  lemma NothingVisited(g0: Graph, m: Merge)
    requires Sound(g0, m)
    ensures Progress(g0, m, {}, g0)
  {
  }

  lemma ListingHoldsAll(g: Graph, m: Merge, es: seq<FullEdge>, split: nat)
    requires Listing(g, m.alias, es, split)
    ensures forall i :: 0 <= i < |es| ==> Candidate(g, m, es[i])
    ensures forall rn :: Affected(g, m, rn) ==> rn in Visited(es)
  {
    forall i | 0 <= i < |es|
      ensures Candidate(g, m, es[i])
    {
      if i < split {
        assert es[i] == es[..split][i];
      } else {
        assert es[i] == es[split..][i - split];
      }
    }
    forall rn | Affected(g, m, rn)
      ensures rn in Visited(es)
    {
      if g.src[rn] == m.alias {
        assert g.Hop(rn, Src) == Some(m.alias);
        var i :| 0 <= i < |es[..split]| && es[..split][i].uuid == rn;
        assert es[i].uuid == rn;
      } else {
        assert g.Hop(rn, Dst) == Some(m.alias);
        var i :| 0 <= i < |es[split..]| && es[split..][i].uuid == rn;
        assert es[i + split].uuid == rn;
      }
    }
  }

  /** The merge moves exactly the affected facts: foreign and untouched rows stay as they were, no
    * active edge of the group touches the alias any more, every affected fact that does not
    * collapse is still stated between the redirected ends, and every new row restates one. */
  lemma MergeMovesExactlyTheAffected(g: Graph, m: Merge, es: seq<FullEdge>, split: nat)
    requires Sound(g, m) && Listing(g, m.alias, es, split)
    ensures var g' := Rewritten(g, m, es);
            && WellFormed(g')
            && g'.entities == g.entities && g'.positions == g.positions
            && (forall rn <- g.edges ::
                  && rn in g'.edges
                  && g'.Hop(rn, Src) == g.Hop(rn, Src) && g'.Hop(rn, Dst) == g.Hop(rn, Dst)
                  && g'.edges[rn] == if Affected(g, m, rn) then g.edges[rn].(invalidAt := Some(m.ts)) else g.edges[rn])
            && (forall rn :: !Affected(g', m, rn))
            && (forall rn :: Affected(g, m, rn) && !Collapses(g, m, rn) ==> StillStated(g, m, g', rn))
            && (forall q <- g'.edges :: q !in g.edges ==>
                  exists rn :: Affected(g, m, rn) && !Collapses(g, m, rn) && Restates(g, m, rn, g', q))
  {
    ListingHoldsAll(g, m, es, split);
    RewriteProgresses(g, m, es);
    AllVisitedMoves(g, m, Visited(es), Rewritten(g, m, es));
  }

  lemma AllVisitedMoves(g: Graph, m: Merge, done: set<Uuid>, g': Graph)
    requires Progress(g, m, done, g') && m.canonical != m.alias && forall rn :: Affected(g, m, rn) ==> rn in done
    ensures forall rn <- g.edges ::
              && rn in g'.edges
              && g'.Hop(rn, Src) == g.Hop(rn, Src) && g'.Hop(rn, Dst) == g.Hop(rn, Dst)
              && g'.edges[rn] == if Affected(g, m, rn) then g.edges[rn].(invalidAt := Some(m.ts)) else g.edges[rn]
    ensures forall rn :: !Affected(g', m, rn)
    ensures forall rn :: Affected(g, m, rn) && !Collapses(g, m, rn) ==> StillStated(g, m, g', rn)
    ensures forall q <- g'.edges :: q !in g.edges ==>
              exists rn :: Affected(g, m, rn) && !Collapses(g, m, rn) && Restates(g, m, rn, g', q)
  {
    forall rn <- g.edges
      ensures OldRowKept(g, m, done, g', rn)
    {
    }
    forall rn
      ensures !Affected(g', m, rn)
    {
      assert OldRowKept(g, m, done, g', rn) && NewRowRestates(g, m, done, g', rn);
    }
    forall rn | Affected(g, m, rn) && !Collapses(g, m, rn)
      ensures StillStated(g, m, g', rn)
    {
      assert FactSurvives(g, m, done, g', rn);
    }
    forall q <- g'.edges | q !in g.edges
      ensures exists rn :: Affected(g, m, rn) && !Collapses(g, m, rn) && Restates(g, m, rn, g', q)
    {
      assert NewRowRestates(g, m, done, g', q);
    }
  }
}
