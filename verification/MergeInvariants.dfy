/** What every call of `merge_entities`, and every sequence of calls, keeps. */
module MergeInvariants {
  import opened Common
  import opened PropertyGraph
  import opened Forwarding
  import opened Store
  import opened MergeEdges
  import opened MergeCounts
  import opened Corrections
  import opened UuidOrder

  /** An active edge of the group, both hops bound, that touches `u`. */
  ghost predicate Touches(g: Graph, group: GroupId, rn: Uuid, u: Uuid) {
    && g.Active(rn) && g.Complete(rn) && g.edges[rn].group == group
    && (g.src[rn] == u || g.dst[rn] == u)
  }

  /** No row of another group is written, and every new row is one of this group's. */
  ghost predicate ForeignKept(g: Graph, group: GroupId, g': Graph) {
    && (forall rn <- g.edges :: g.edges[rn].group != group ==>
          && rn in g'.edges && g'.edges[rn] == g.edges[rn]
          && g'.Hop(rn, Src) == g.Hop(rn, Src) && g'.Hop(rn, Dst) == g.Hop(rn, Dst))
    && (forall rn <- g'.edges :: rn in g.edges || g'.edges[rn].group == group)
    && (forall rn <- g.edges :: rn in g'.edges && g'.edges[rn].group == g.edges[rn].group)
  }

  ghost predicate NoNewDuplicates(g: Graph, g': Graph) {
    forall r, q :: Duplicates(g', r, q) ==> Duplicates(g, r, q)
  }

  function TombstoneAll(ents: Entities, aliases: seq<Uuid>, c: Uuid): Entities {
    if aliases == [] then ents
    else
      var before := TombstoneAll(ents, aliases[..|aliases| - 1], c);
      var a := aliases[|aliases| - 1];
      if a in before then Tombstone(before, a, c) else before
  }

  lemma {:induction false} TombstoneAllRows(ents: Entities, aliases: seq<Uuid>, c: Uuid)
    ensures var ents' := TombstoneAll(ents, aliases, c);
            && ents'.Keys == ents.Keys
            && forall u <- ents :: ents'[u] == if u in aliases
                                              then ents[u].(merged := true, mergedInto := Some(c)) else ents[u]
  {
    if aliases != [] {
      var front, a := aliases[..|aliases| - 1], aliases[|aliases| - 1];
      assert aliases == front + [a];
      TombstoneAllRows(ents, front, c);
    }
  }

  /** The aliases a call may merge into `c`. */
  ghost predicate Mergeable(ents: Entities, aliases: seq<Uuid>, c: Uuid, group: GroupId) {
    && (forall a <- aliases :: MayMerge(ents, a, c) && ents[a].group == group)
    && Distinct(aliases)
  }

  /** What holds after the visits of `aliases`. */
  ghost predicate MergeKept(g: Graph, aliases: seq<Uuid>, c: Uuid, group: GroupId, g': Graph) {
    && WellFormed(g')
    && g'.entities == TombstoneAll(g.entities, aliases, c)
    && (Forest(g.entities) ==> Forest(g'.entities))
    && NoNewDuplicates(g, g')
    && ForeignKept(g, group, g')
    && forall a, rn :: a in aliases ==> !Touches(g', group, rn, a)
  }

  /** A visit leaves no edge on its own alias and puts none on an alias that had none. */
  lemma VisitClears(g: Graph, v: Visit, rn: Uuid, a: Uuid)
    requires Sound(g, v.m) && Listing(g, v.m.alias, v.rows, v.split)
    requires a == v.m.alias || (a != v.m.canonical && forall q :: !Touches(g, v.m.group, q, a))
    ensures !Touches(AfterVisit(g, v), v.m.group, rn, a)
  {
    var g' := Rewritten(g, v.m, v.rows);
    MergeMovesExactlyTheAffected(g, v.m, v.rows, v.split);
    assert !Affected(g', v.m, rn);
    if Touches(g', v.m.group, rn, a) && a != v.m.alias {
      if rn in g.edges {
        assert g'.Hop(rn, Src) == g.Hop(rn, Src) && g'.Hop(rn, Dst) == g.Hop(rn, Dst);
        assert Touches(g, v.m.group, rn, a);
      } else {
        var r :| Affected(g, v.m, r) && !Collapses(g, v.m, r) && Restates(g, v.m, r, g', rn);
        assert Touches(g, v.m.group, r, a);
      }
    }
  }

  lemma VisitKeepsGraph(g: Graph, v: Visit)
    requires Sound(g, v.m) && Listing(g, v.m.alias, v.rows, v.split)
    ensures var g' := AfterVisit(g, v);
            WellFormed(g') && NoNewDuplicates(g, g') && ForeignKept(g, v.m.group, g')
  {
    var m := v.m;
    var g1, g' := Rewritten(g, m, v.rows), AfterVisit(g, v);
    MergeMovesExactlyTheAffected(g, m, v.rows, v.split);
    ListingHoldsAll(g, m, v.rows, v.split);
    forall rn
      ensures DirectSynced(g', rn)
    {
      assert DirectSynced(g1, rn);
    }
    forall r, q | Duplicates(g', r, q)
      ensures Duplicates(g, r, q)
    {
      assert Duplicates(g1, r, q);
      MergeAddsNoDuplicate(g, m, v.rows, r, q);
    }
    VisitKeepsForeign(g, v);
  }

  lemma VisitKeepsForeign(g: Graph, v: Visit)
    requires Sound(g, v.m) && Listing(g, v.m.alias, v.rows, v.split)
    ensures ForeignKept(g, v.m.group, AfterVisit(g, v))
  {
    MergeMovesExactlyTheAffected(g, v.m, v.rows, v.split);
    ForeignKeptWhenMoved(g, v.m, Rewritten(g, v.m, v.rows));
  }

  lemma ForeignKeptWhenMoved(g: Graph, m: Merge, g1: Graph)
    requires forall rn <- g.edges ::
               && rn in g1.edges
               && g1.Hop(rn, Src) == g.Hop(rn, Src) && g1.Hop(rn, Dst) == g.Hop(rn, Dst)
               && g1.edges[rn] == if Affected(g, m, rn) then g.edges[rn].(invalidAt := Some(m.ts)) else g.edges[rn]
    requires forall q <- g1.edges :: q !in g.edges ==>
               exists rn :: Affected(g, m, rn) && !Collapses(g, m, rn) && Restates(g, m, rn, g1, q)
    ensures ForeignKept(g, m.group, g1)
  {
    forall rn <- g1.edges | rn !in g.edges
      ensures g1.edges[rn].group == m.group
    {
      var r :| Affected(g, m, r) && !Collapses(g, m, r) && Restates(g, m, r, g1, rn);
    }
  }

  lemma {:induction false} VisitsKeep(
      g: Graph, visits: seq<Visit>, aliases: seq<Uuid>, c: Uuid, group: GroupId, ts: Timestamp)
    requires WellFormed(g) && Mergeable(g.entities, aliases, c, group)
    requires VisitsOf(visits, c, aliases, group, ts) && MergeRun(g, visits)
    ensures MergeKept(g, aliases, c, group, AfterVisits(g, visits))
  {
    if visits == [] {
    } else {
      var n := |visits| - 1;
      var front, v, done := visits[..n], visits[n], aliases[..n];
      assert aliases == done + [v.m.alias];
      VisitsKeep(g, front, done, c, group, ts);
      TombstoneAllRows(g.entities, done, c);
      var before := AfterVisits(g, front);
      assert v.m.alias !in done;
      VisitStep(g, before, v, done, aliases);
    }
  }

  lemma VisitStep(g: Graph, before: Graph, v: Visit, done: seq<Uuid>, aliases: seq<Uuid>)
    requires Mergeable(g.entities, aliases, v.m.canonical, v.m.group)
    requires aliases == done + [v.m.alias] && v.m.alias !in done && v.m.canonical !in aliases
    requires MergeKept(g, done, v.m.canonical, v.m.group, before)
    requires Listing(before, v.m.alias, v.rows, v.split)
    ensures MergeKept(g, aliases, v.m.canonical, v.m.group, AfterVisit(before, v))
  {
    var m, after := v.m, AfterVisit(before, v);
    TombstoneAllRows(g.entities, done, m.canonical);
    assert MayMerge(g.entities, m.alias, m.canonical);
    assert MayMerge(before.entities, m.alias, m.canonical);
    VisitKeepsGraph(before, v);
    assert aliases[..|aliases| - 1] == done;
    if Forest(g.entities) {
      TombstoneKeepsForest(before.entities, m.alias, m.canonical);
    }
    ForeignKeptTrans(g, before, after, m.group);
    forall a, rn | a in aliases
      ensures !Touches(after, m.group, rn, a)
    {
      assert a == m.alias || a in done;
      VisitClears(before, v, rn, a);
    }
  }

  lemma ForeignKeptTrans(g: Graph, g1: Graph, g2: Graph, group: GroupId)
    requires ForeignKept(g, group, g1) && ForeignKept(g1, group, g2)
    ensures ForeignKept(g, group, g2)
  {
  }

  /** Moving the canonical's creation time back changes none of this. */
  lemma BackdateKeeps(g: Graph, c: Uuid, t: Timestamp)
    requires c in g.entities && WellFormed(g)
    ensures var g' := Backdate(g, c, t);
            && WellFormed(g') && NoNewDuplicates(g, g') && Quiet(g.entities, g'.entities)
            && g'.edges == g.edges && g'.src == g.src && g'.dst == g.dst
  {
    var g' := Backdate(g, c, t);
    forall rn
      ensures DirectSynced(g', rn)
    {
      assert DirectSynced(g, rn);
    }
    forall r, q | Duplicates(g', r, q)
      ensures Duplicates(g, r, q)
    {
    }
  }

  lemma MergedIsMergeable(g: Graph, p: MergeParams, ts: Timestamp, c: Uuid, visits: seq<Visit>, g': Graph)
    requires Merged(g, p, ts, c, visits, g')
    ensures Mergeable(g.entities, LiveAliases(g.entities, p, c), c, p.Group())
  {
    AliasesAreRows(g.entities, p, c);
    LiveDistinct(g.entities, Sorted(AliasSet(g.entities, p, c)));
  }

  /** The aliases of a call that merges are mergeable, so the run over them keeps the graph. */
  lemma MergedKeeps(g: Graph, p: MergeParams, ts: Timestamp, c: Uuid, visits: seq<Visit>, g': Graph)
    requires WellFormed(g) && Merged(g, p, ts, c, visits, g')
    ensures MergeKept(g, LiveAliases(g.entities, p, c), c, p.Group(), AfterVisits(g, visits))
  {
    var aliases := LiveAliases(g.entities, p, c);
    MergedIsMergeable(g, p, ts, c, visits, g');
    VisitsKeep(g, visits, aliases, c, p.Group(), ts);
  }

  /** One call: whatever its parameters, it keeps the graph well formed, keeps the forwarding
    * forest, adds no duplicate, and writes no row of another group. */
  lemma MergeCallKeeps(g: Graph, p: MergeParams, ts: Timestamp, g': Graph)
    requires WellFormed(g) && MergeCall(g, p, ts, g')
    ensures WellFormed(g') && NoNewDuplicates(g, g') && ForeignKept(g, p.Group(), g')
    ensures Forest(g.entities) ==> Forest(g'.entities)
  {
    if !p.dryRun && exists c :: Proceeds(g.entities, p, c) {
      var c, visits :| Merged(g, p, ts, c, visits, g');
      MergedKeeps(g, p, ts, c, visits, g');
      AfterMerged(g, LiveAliases(g.entities, p, c), c, p.Group(), AfterVisits(g, visits),
                  Earliest(g.entities, c, LiveAliases(g.entities, p, c)));
    }
  }

  lemma AfterMerged(g: Graph, aliases: seq<Uuid>, c: Uuid, group: GroupId, g1: Graph, t: Timestamp)
    requires MergeKept(g, aliases, c, group, g1) && c in g1.entities
    ensures var g' := Backdate(g1, c, t);
            && WellFormed(g') && NoNewDuplicates(g, g') && ForeignKept(g, group, g')
            && (Forest(g.entities) ==> Forest(g'.entities))
  {
    BackdateKeeps(g1, c, t);
    if Forest(g.entities) {
      QuietKeepsForest(g1.entities, Backdate(g1, c, t).entities);
    }
  }

  lemma DistinctAppend(s: seq<Uuid>, a: Uuid)
    requires Distinct(s) && a !in s
    ensures Distinct(s + [a])
  {
  }

  lemma {:induction false} LiveDistinct(ents: Entities, aliases: seq<Uuid>)
    requires Distinct(aliases)
    ensures Distinct(Live(ents, aliases))
  {
    if aliases != [] {
      var front, a := aliases[..|aliases| - 1], aliases[|aliases| - 1];
      LiveDistinct(ents, front);
      assert forall i :: 0 <= i < |front| ==> front[i] == aliases[i];
      if a in ents && !ents[a].merged {
        DistinctAppend(Live(ents, front), a);
      }
    }
  }

  /** After a call that merges, exactly its live aliases became tombstones of the canonical, and no
    * other row changed but the canonical's creation time. */
  lemma MergedTombstonesTheAliases(g: Graph, p: MergeParams, ts: Timestamp, c: Uuid, visits: seq<Visit>, g': Graph)
    requires WellFormed(g) && Merged(g, p, ts, c, visits, g')
    ensures var aliases := LiveAliases(g.entities, p, c);
            && g'.entities.Keys == g.entities.Keys
            && forall u <- g.entities :: u != c ==>
                 g'.entities[u] == if u in aliases
                                   then g.entities[u].(merged := true, mergedInto := Some(c)) else g.entities[u]
  {
    var aliases := LiveAliases(g.entities, p, c);
    MergedKeeps(g, p, ts, c, visits, g');
    TombstonesThenBackdate(g.entities, aliases, c, Earliest(g.entities, c, aliases));
  }

  lemma TombstonesThenBackdate(ents: Entities, aliases: seq<Uuid>, c: Uuid, t: Timestamp)
    requires c in ents
    ensures c in TombstoneAll(ents, aliases, c)
    ensures var all := TombstoneAll(ents, aliases, c);
            var ents' := all[c := all[c].(createdAt := t)];
            && ents'.Keys == ents.Keys
            && forall u <- ents :: u != c ==>
                 ents'[u] == if u in aliases
                             then ents[u].(merged := true, mergedInto := Some(c)) else ents[u]
  {
    TombstoneAllRows(ents, aliases, c);
  }

  /** After a call that merges, no active edge of the group with both hops bound touches an alias. */
  lemma MergedClearsTheAliases(g: Graph, p: MergeParams, ts: Timestamp, c: Uuid, visits: seq<Visit>, g': Graph)
    requires WellFormed(g) && Merged(g, p, ts, c, visits, g')
    ensures forall a, rn :: a in LiveAliases(g.entities, p, c) ==> !Touches(g', p.Group(), rn, a)
  {
    var aliases := LiveAliases(g.entities, p, c);
    MergedKeeps(g, p, ts, c, visits, g');
    StillClear(AfterVisits(g, visits), c, Earliest(g.entities, c, aliases), aliases, p.Group());
  }

  lemma StillClear(g: Graph, c: Uuid, t: Timestamp, aliases: seq<Uuid>, group: GroupId)
    requires c in g.entities && forall a, rn :: a in aliases ==> !Touches(g, group, rn, a)
    ensures forall a, rn :: a in aliases ==> !Touches(Backdate(g, c, t), group, rn, a)
  {
    forall a, rn | a in aliases
      ensures !Touches(Backdate(g, c, t), group, rn, a)
    {
      assert !Touches(g, group, rn, a);
    }
  }

  ghost predicate MergeStep(g: Graph, g': Graph) {
    exists p, ts :: MergeCall(g, p, ts, g')
  }

  /** A step of a run: a merge call, or any change that leaves tombstones alone. */
  ghost predicate RunStep(g: Graph, g': Graph) {
    || MergeStep(g, g')
    || (WellFormed(g') && Quiet(g.entities, g'.entities))
  }

  lemma RunStepKeepsForest(g: Graph, g': Graph)
    requires WellFormed(g) && Forest(g.entities) && RunStep(g, g')
    ensures WellFormed(g') && Forest(g'.entities)
  {
    if MergeStep(g, g') {
      var p, ts :| MergeCall(g, p, ts, g');
      MergeCallKeeps(g, p, ts, g');
    } else {
      QuietKeepsForest(g.entities, g'.entities);
    }
  }

  ghost predicate Run(gs: seq<Graph>) {
    && |gs| > 0 && WellFormed(gs[0]) && NoTombstones(gs[0].entities)
    && forall i {:trigger gs[i]} :: 0 < i < |gs| ==> RunStep(gs[i - 1], gs[i])
  }

  /** In every run that starts without tombstones, `merged_into` stays a forest inside each group
    * and kind, so from any tombstone the walk reaches a live row of that group and kind. */
  lemma {:induction false} RunsKeepForest(gs: seq<Graph>, n: nat)
    requires Run(gs) && n < |gs|
    ensures WellFormed(gs[n]) && Forest(gs[n].entities)
    ensures forall u <- gs[n].entities :: gs[n].entities[u].merged ==>
              var r := Walk(gs[n].entities, gs[n].entities[u].group, u);
              && r.Some? && r.value in gs[n].entities
              && !gs[n].entities[r.value].merged
              && gs[n].entities[r.value].group == gs[n].entities[u].group
              && gs[n].entities[r.value].Kind() == gs[n].entities[u].Kind()
  {
    if n > 0 {
      RunsKeepForest(gs, n - 1);
      assert RunStep(gs[n - 1], gs[n]);
      RunStepKeepsForest(gs[n - 1], gs[n]);
    }
    forall u <- gs[n].entities | gs[n].entities[u].merged
      ensures var r := Walk(gs[n].entities, gs[n].entities[u].group, u);
              && r.Some? && r.value in gs[n].entities
              && !gs[n].entities[r.value].merged
              && gs[n].entities[r.value].group == gs[n].entities[u].group
              && gs[n].entities[r.value].Kind() == gs[n].entities[u].Kind()
    {
      ForestHasNoDeadEnds(gs[n].entities, u);
    }
  }
}
