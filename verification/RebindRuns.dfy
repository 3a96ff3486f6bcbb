/** The staleness gate over whole runs: as long as a group's position never goes back and moves with
  * the group's rows and hops, the gate never changes where a pass ends. The passes and the edge
  * creations of this project keep to that rule on their own. */
module RebindRuns {
  import opened Common
  import opened PropertyGraph
  import opened NameLookup
  import opened PointerResolution
  import opened CrossGroupEdges
  import opened Store
  import opened MergeEdges
  import opened Rebind
  import opened RebindInvariants
  import opened RebindGate

  /** The pointer on `rn` was already on `r0`, with the same hop unless the position has moved. */
  ghost predicate Inherits(g: Graph, r0: Uuid, g': Graph, rn: Uuid, side: Side, source: GroupId) {
    && PointerAt(g, r0, side, source) && PointerAt(g', rn, side, source)
    && PointerOf(g', rn, side) == PointerOf(g, r0, side)
    && (g'.Position(source) == g.Position(source) ==> g'.Hop(rn, side) == g.Hop(r0, side))
  }

  ghost predicate JustResolved(f: Folding, g: Graph, rn: Uuid, side: Side, source: GroupId) {
    && PointerAt(g, rn, side, source)
    && Current(f, g, rn, side)
    && PointerOf(g, rn, side).boundAt == g.Position(source)
  }

  ghost predicate PointerHonest(f: Folding, g: Graph, g': Graph, source: GroupId, rn: Uuid, side: Side) {
    PointerAt(g', rn, side, source) ==>
      JustResolved(f, g', rn, side, source) || exists r0 :: Inherits(g, r0, g', rn, side, source)
  }

  predicate NotBack(pos: Option<nat>, pos': Option<nat>) {
    pos.Some? ==> pos'.Some? && pos.value <= pos'.value
  }

  /** One step of a run, as far as pointers into `source` are concerned: the position never goes back
    * and stays put only if the group's rows do, and a pointer is old or freshly resolved. What else
    * the step does - insert, invalidate or rewrite edges, change other groups - is left open. */
  ghost predicate Honest(f: Folding, g: Graph, g': Graph, source: GroupId) {
    && NotBack(g.Position(source), g'.Position(source))
    && (g'.Position(source) == g.Position(source) ==> SameGroupRows(g.entities, g'.entities, source))
    && (forall rn, side :: PointerHonest(f, g, g', source, rn, side))
  }

  lemma HonestKeepsFreshAt(f: Folding, g: Graph, g': Graph, source: GroupId, rn: Uuid, side: Side)
    requires NoForeignKeys(f, g.entities, source) && NoForeignKeys(f, g'.entities, source)
    requires Fresh(f, g, source) && Honest(f, g, g', source)
    ensures FreshAt(f, g', source, rn, side)
  {
    assert PointerHonest(f, g, g', source, rn, side);
    if PointerAt(g', rn, side, source) && !JustResolved(f, g', rn, side, source) {
      var r0 :| Inherits(g, r0, g', rn, side, source);
      assert FreshAt(f, g, source, r0, side);
      var p := PointerOf(g', rn, side);
      if p.boundAt.Some? && p.state.Bound? && p.boundAt == g'.Position(source) {
        ResolutionReadsOneGroup(f, g.entities, g'.entities, source, p.name, p.kind);
      }
    }
  }

  /** The graphs of a run, first to last. Keys may be stale, the group's own included, as long as no other
    * group's row carries a key of this one. */
  ghost predicate HonestRun(f: Folding, run: seq<Graph>, source: GroupId) {
    && run != []
    && var g := run[|run| - 1];
       && WellFormed(g) && NoForeignKeys(f, g.entities, source)
       && (|run| == 1
           || (Honest(f, run[|run| - 2], g, source) && HonestRun(f, run[..|run| - 1], source)))
  }

  lemma {:induction false} RunsStayFresh(f: Folding, run: seq<Graph>, source: GroupId)
    requires HonestRun(f, run, source) && Fresh(f, run[0], source)
    ensures Fresh(f, run[|run| - 1], source)
  {
    if |run| > 1 {
      var front := run[..|run| - 1];
      RunsStayFresh(f, front, source);
      var before, last := run[|run| - 2], run[|run| - 1];
      assert front[|front| - 1] == before;
      forall rn, side
        ensures FreshAt(f, last, source, rn, side)
      {
        HonestKeepsFreshAt(f, before, last, source, rn, side);
      }
    }
  }

  /** The gate is a pure optimisation: at the end of every such run, which may start anywhere no
    * pointer is ahead of its group, a gated and a forced pass whose lookups heal nothing reach the same
    * graph. A lookup that heals moves a row without moving the position, so it is no honest step. */
  lemma GateIsPureOverRuns(f: Folding, run: seq<Graph>, pass: Pass, order: seq<Uuid>)
    requires HonestRun(f, run, pass.source) && Fresh(f, run[0], pass.source)
    requires Clean(f, run[|run| - 1], pass.source)
    requires Candidates(run[|run| - 1], order)
    ensures Steps(f, run[|run| - 1], pass, order) == Steps(f, run[|run| - 1], Forced(pass), order)
  {
    RunsStayFresh(f, run, pass.source);
    GatedEqualsForced(f, run[|run| - 1], pass, order);
  }

  /** Every pointer into the group was on some active row before, as it is now. */
  ghost predicate PointersCarried(g: Graph, g': Graph, source: GroupId) {
    forall rn, side :: PointerAt(g', rn, side, source) ==> Carried(g, PointerOf(g', rn, side), side, source)
  }

  ghost predicate Carried(g: Graph, p: Pointer, side: Side, source: GroupId) {
    exists r0 :: PointerAt(g, r0, side, source) && PointerOf(g, r0, side) == p
  }

  /** Any change of entities and hops, and any insertion, rewrite or removal of edge rows that carries
    * its pointers along, is honest once the group's position has strictly advanced with it: pointers
    * checked before are then behind. */
  lemma AdvanceIsHonest(f: Folding, g: Graph, g': Graph, source: GroupId)
    requires PointersCarried(g, g', source)
    requires g'.Position(source).Some?
    requires g.Position(source).Some? ==> g.Position(source).value < g'.Position(source).value
    ensures Honest(f, g, g', source)
  {
    forall rn, side
      ensures PointerHonest(f, g, g', source, rn, side)
    {
      if PointerAt(g', rn, side, source) {
        assert Carried(g, PointerOf(g', rn, side), side, source);
        var r0 :| PointerAt(g, r0, side, source) && PointerOf(g, r0, side) == PointerOf(g', rn, side);
        assert Inherits(g, r0, g', rn, side, source);
      }
    }
  }

  /** The edge rewrite of a merge is such a change for every group. */
  lemma MergeCarriesPointers(g: Graph, m: Merge, es: seq<FullEdge>, split: nat, source: GroupId)
    requires Sound(g, m) && Listing(g, m.alias, es, split)
    ensures PointersCarried(g, Rewritten(g, m, es), source)
  {
    MergeMovesExactlyTheAffected(g, m, es, split);
    RewriteCarriesPointers(g, m, Rewritten(g, m, es), source);
  }

  lemma RewriteCarriesPointers(g: Graph, m: Merge, g': Graph, source: GroupId)
    requires forall rn <- g.edges :: rn in g'.edges && (g'.Active(rn) ==> g'.edges[rn] == g.edges[rn])
    requires forall q <- g'.edges :: q !in g.edges ==>
               exists rn :: Affected(g, m, rn) && !Collapses(g, m, rn) && Restates(g, m, rn, g', q)
    ensures PointersCarried(g, g', source)
  {
    forall rn, side | PointerAt(g', rn, side, source)
      ensures Carried(g, PointerOf(g', rn, side), side, source)
    {
      if rn in g.edges {
        assert PointerAt(g, rn, side, source);
      } else {
        var r :| Affected(g, m, r) && !Collapses(g, m, r) && Restates(g, m, r, g', rn);
        assert PointerAt(g, r, side, source);
      }
    }
  }

  // The operations of this project are honest steps.

  lemma {:induction false} StepsOutcome(f: Folding, g: Graph, pass: Pass, order: seq<Uuid>, rest: seq<Uuid>,
                                        rn: Uuid, side: Side)
    requires WellFormed(g) && Clean(f, g, pass.source) && AllActive(g, order + rest) && Distinct(order + rest)
    requires rn in order
    ensures var g' := Steps(f, g, pass, order);
            rn in g.edges && rn in g'.edges && (g'.Active(rn) ==> SideOutcome(f, g, pass, rn, side, g'))
  {
    var front, last := order[..|order| - 1], order[|order| - 1];
    assert order == front + [last];
    assert order + rest == front + ([last] + rest);
    StepsKeepClean(f, g, pass, front, [last] + rest);
    StepsKeep(f, g, pass, front);
    var before := Steps(f, g, pass, front);
    assert ([last] + rest)[0] == last;
    assert before.Active(last);
    CleanStep(f, before, pass, last);
    if last == rn {
      LastOutcome(f, g, pass, front, last, rest, side);
    } else {
      StepsOutcome(f, g, pass, front, [last] + rest, rn, side);
      OtherSidesSame(before, Steps(f, g, pass, order), last, rn);
      OutcomeCarries(f, g, pass, rn, side, before, Steps(f, g, pass, order));
    }
  }

  lemma OutcomeCarries(f: Folding, g: Graph, pass: Pass, rn: Uuid, side: Side, before: Graph, after: Graph)
    requires rn in g.edges && SidesSame(before, after, rn)
    requires before.Active(rn) ==> SideOutcome(f, g, pass, rn, side, before)
    ensures after.Active(rn) ==> SideOutcome(f, g, pass, rn, side, after)
  {
  }

  lemma LastOutcome(f: Folding, g: Graph, pass: Pass, front: seq<Uuid>, rn: Uuid, rest: seq<Uuid>, side: Side)
    requires WellFormed(g) && Clean(f, g, pass.source)
    requires AllActive(g, front + ([rn] + rest)) && Distinct(front + ([rn] + rest))
    ensures var g' := Step(f, Steps(f, g, pass, front), pass, rn);
            rn in g.edges && rn in g'.edges && (g'.Active(rn) ==> SideOutcome(f, g, pass, rn, side, g'))
  {
    var before := Steps(f, g, pass, front);
    StepsKeepClean(f, g, pass, front, [rn] + rest);
    StepsKeep(f, g, pass, front);
    var order := front + ([rn] + rest);
    assert ([rn] + rest)[0] == rn && order[|front|] == rn;
    assert before.Active(rn);
    CleanStep(f, before, pass, rn);
    assert forall i :: 0 <= i < |front| ==> front[i] == order[i] != rn;
    assert rn !in front;
    assert SameRow(g, before, rn);
    OutcomeFrom(f, g, before, pass, rn, side, Step(f, before, pass, rn));
  }

  lemma OutcomeFrom(f: Folding, g: Graph, before: Graph, pass: Pass, rn: Uuid, side: Side, g': Graph)
    requires SameRow(g, before, rn) && before.entities == g.entities && rn in g'.edges
    requires g'.Active(rn) ==> SideOutcome(f, before, pass, rn, Src, g') && SideOutcome(f, before, pass, rn, Dst, g')
    ensures g'.Active(rn) ==> SideOutcome(f, g, pass, rn, side, g')
  {
  }

  /** Looking a name up in one group heals that group's rows only. */
  lemma LookupStaysInGroup(f: Folding, ents: Entities, group: GroupId, name: Name, kind: Option<Kind>)
    ensures var ents' := LookupWrites(f, ents, group, name, kind);
            ents'.Keys == ents.Keys && forall u <- ents :: ents[u].group != group ==> ents'[u] == ents[u]
  {
    LookupWritesKeepIdentities(f, ents, group, name, kind);
  }

  ghost predicate OtherGroupsKept(ents: Entities, ents': Entities, group: GroupId) {
    ents'.Keys == ents.Keys
    && forall u <- ents :: ents'[u].group == ents[u].group && (ents[u].group != group ==> ents'[u] == ents[u])
  }

  lemma StepStaysInGroup(f: Folding, g: Graph, pass: Pass, rn: Uuid)
    requires WellFormed(g)
    ensures OtherGroupsKept(g.entities, Step(f, g, pass, rn).entities, pass.source)
  {
    StepKeeps(f, g, pass, rn);
    if rn in g.edges {
      var ps, pos := g.edges[rn].pointers, g.Position(pass.source);
      var ents1 := FindWrites(f, g.entities, pass, pos, ps.src);
      FindStaysInGroup(f, g.entities, pass, pos, ps.src);
      FindStaysInGroup(f, ents1, pass, pos, ps.dst);
      var found := Phase1(f, g, pass, rn);
      HealedWellFormed(g, found.g);
      SettleKeepsEntities(found.g, rn, found.src, found.dst, pos, pass.ts);
    }
  }

  lemma FindStaysInGroup(f: Folding, ents: Entities, pass: Pass, pos: Option<nat>, p: Option<Pointer>)
    ensures OtherGroupsKept(ents, FindWrites(f, ents, pass, pos, p), pass.source)
  {
    if Checks(pass, pos, p) {
      LookupStaysInGroup(f, ents, pass.source, p.value.name, p.value.kind);
      LookupWritesKeepIdentities(f, ents, pass.source, p.value.name, p.value.kind);
    }
  }

  lemma {:induction false} StepsStayInGroup(f: Folding, g: Graph, pass: Pass, order: seq<Uuid>)
    requires WellFormed(g)
    ensures OtherGroupsKept(g.entities, Steps(f, g, pass, order).entities, pass.source)
  {
    if order != [] {
      var front, last := order[..|order| - 1], order[|order| - 1];
      StepsStayInGroup(f, g, pass, front);
      StepsKeep(f, g, pass, front);
      StepStaysInGroup(f, Steps(f, g, pass, front), pass, last);
    }
  }

  /** A pass into any group, gated or forced, is an honest step for every group, whatever the state of the
    * indexes, as long as it heals nothing in the group that the step is honest for. */
  lemma PassIsHonest(f: Folding, g: Graph, pass: Pass, order: seq<Uuid>, source: GroupId)
    requires WellFormed(g) && Candidates(g, order) && (source == pass.source ==> Clean(f, g, source))
    ensures Honest(f, g, Steps(f, g, pass, order), source)
  {
    StepsKeep(f, g, pass, order);
    if source == pass.source {
      CleanPassIsHonest(f, g, pass, order);
    } else {
      StepsStayInGroup(f, g, pass, order);
      OtherPassIsHonest(f, g, pass, order, source);
    }
  }

  /** A pass into another group moves no pointer into this one. */
  lemma OtherPassIsHonest(f: Folding, g: Graph, pass: Pass, order: seq<Uuid>, source: GroupId)
    requires WellFormed(g) && Candidates(g, order) && source != pass.source
    requires var g' := Steps(f, g, pass, order);
             OtherGroupsKept(g.entities, g'.entities, pass.source) && g'.positions == g.positions
    ensures Honest(f, g, Steps(f, g, pass, order), source)
  {
    var g' := Steps(f, g, pass, order);
    forall rn, side
      ensures PointerHonest(f, g, g', source, rn, side)
    {
      if PointerAt(g', rn, side, source) {
        OtherPointerInherits(f, g, pass, order, rn, side, source);
      }
    }
  }

  lemma OtherPointerInherits(f: Folding, g: Graph, pass: Pass, order: seq<Uuid>, rn: Uuid, side: Side, source: GroupId)
    requires WellFormed(g) && Candidates(g, order) && source != pass.source
    requires PointerAt(Steps(f, g, pass, order), rn, side, source)
    ensures Inherits(g, rn, Steps(f, g, pass, order), rn, side, source)
  {
    StepsKeep(f, g, pass, order);
    CandidateBefore(g, Steps(f, g, pass, order), order, rn);
    var i: nat :| i < |order| && order[i] == rn;
    OneRebound(f, g, pass, order, i);
    UncheckedInherits(f, g, Steps(f, g, pass, order[..i]), pass, rn, side, Steps(f, g, pass, order), source);
  }

  lemma UncheckedInherits(f: Folding, g: Graph, turn: Graph, pass: Pass, rn: Uuid, side: Side, g': Graph,
                          source: GroupId)
    requires source != pass.source && g.Active(rn) && EdgeRebound(f, g, turn, pass, rn, g')
    requires PointerAt(g', rn, side, source)
    ensures Inherits(g, rn, g', rn, side, source)
  {
    assert SideRebound(f, g, pass, rn, side, TableFor(f, turn, pass, rn, side), g');
  }

  /** A pass whose lookups heal nothing is an honest step for the group it points into. */
  lemma CleanPassIsHonest(f: Folding, g: Graph, pass: Pass, order: seq<Uuid>)
    requires WellFormed(g) && Clean(f, g, pass.source) && Candidates(g, order)
    ensures Honest(f, g, Steps(f, g, pass, order), pass.source)
  {
    var g' := Steps(f, g, pass, order);
    assert order + [] == order;
    StepsKeepClean(f, g, pass, order, []);
    StepsKeep(f, g, pass, order);
    forall rn, side
      ensures PointerHonest(f, g, g', pass.source, rn, side)
    {
      if PointerAt(g', rn, side, pass.source) {
        CandidateBefore(g, g', order, rn);
        StepsOutcome(f, g, pass, order, [], rn, side);
        OutcomeIsHonest(f, g, pass, rn, side, g', pass.source);
      }
    }
  }

  lemma OutcomeIsHonest(f: Folding, g: Graph, pass: Pass, rn: Uuid, side: Side, g': Graph, source: GroupId)
    requires g.Active(rn) && g'.Active(rn) && SideOutcome(f, g, pass, rn, side, g')
    requires g'.entities == g.entities && g'.positions == g.positions
    ensures PointerHonest(f, g, g', source, rn, side)
  {
    if PointerAt(g', rn, side, source) && !Checks(pass, g.Position(pass.source), g.edges[rn].pointers.At(side)) {
      assert Inherits(g, rn, g', rn, side, source);
    }
  }

  /** The endpoint's lookup heals nothing in that group. */
  ghost predicate SideQuiet(f: Folding, g: Graph, spec: EndpointSpec, group: GroupId, source: GroupId) {
    spec.Foreign? && spec.source == source ==> SideWrites(f, g, spec, group) == g
  }

  lemma SideHeals(f: Folding, g: Graph, spec: EndpointSpec, group: GroupId, source: GroupId)
    requires SideQuiet(f, g, spec, group, source)
    ensures var g' := SideWrites(f, g, spec, group);
            g' == g.(entities := g'.entities) && SameGroupRows(g.entities, g'.entities, source)
  {
    if spec.Foreign? && Refuses(f, g.entities, spec, group).None? {
      LookupStaysInGroup(f, g.entities, spec.source, f.clean(spec.name), SpecKind(f, spec.kind));
      LookupWritesKeepIdentities(f, g.entities, spec.source, f.clean(spec.name), SpecKind(f, spec.kind));
    }
  }

  /** So it is when the group's index is in order. */
  lemma KeyedSideIsQuiet(f: Folding, g: Graph, spec: EndpointSpec, group: GroupId, source: GroupId)
    requires KeyedIn(f, g.entities, source)
    ensures SideQuiet(f, g, spec, group, source)
  {
    if spec.Foreign? && spec.source == source {
      KeyedLookupWritesNothing(f, g.entities, source, f.clean(spec.name), SpecKind(f, spec.kind));
    }
  }

  /** Passes and creations keep foreign keys out of the group, so they continue a run, and leave its index in
    * order if it was, as long as the key format can tell the groups apart. */
  predicate Apart(a: GroupId, b: GroupId) {
    a == b || (SeparatorFree(a) && SeparatorFree(b))
  }

  lemma StepKeepsKeyed(f: Folding, g: Graph, pass: Pass, rn: Uuid, source: GroupId)
    requires WellFormed(g) && NoForeignKeys(f, g.entities, source) && Apart(pass.source, source)
    ensures NoForeignKeys(f, Step(f, g, pass, rn).entities, source)
    ensures KeyedIn(f, g.entities, source) ==> KeyedIn(f, Step(f, g, pass, rn).entities, source)
  {
    if rn in g.edges {
      var ps, pos := g.edges[rn].pointers, g.Position(pass.source);
      var ents1 := FindWrites(f, g.entities, pass, pos, ps.src);
      FindKeepsKeyed(f, g.entities, pass, pos, ps.src, source);
      FindKeepsKeyed(f, ents1, pass, pos, ps.dst, source);
      var found := Phase1(f, g, pass, rn);
      HealedWellFormed(g, found.g);
      SettleKeepsEntities(found.g, rn, found.src, found.dst, pos, pass.ts);
    }
  }

  lemma FindKeepsKeyed(f: Folding, ents: Entities, pass: Pass, pos: Option<nat>, p: Option<Pointer>, source: GroupId)
    requires NoForeignKeys(f, ents, source) && Apart(pass.source, source)
    ensures NoForeignKeys(f, FindWrites(f, ents, pass, pos, p), source)
    ensures KeyedIn(f, ents, source) ==> KeyedIn(f, FindWrites(f, ents, pass, pos, p), source)
  {
    if Checks(pass, pos, p) {
      LookupKeepsKeyed(f, ents, pass.source, p.value.name, p.value.kind, source);
    }
  }

  lemma {:induction false} PassKeepsKeyed(f: Folding, g: Graph, pass: Pass, order: seq<Uuid>, source: GroupId)
    requires WellFormed(g) && NoForeignKeys(f, g.entities, source) && Apart(pass.source, source)
    ensures NoForeignKeys(f, Steps(f, g, pass, order).entities, source)
    ensures KeyedIn(f, g.entities, source) ==> KeyedIn(f, Steps(f, g, pass, order).entities, source)
  {
    if order != [] {
      var front, last := order[..|order| - 1], order[|order| - 1];
      PassKeepsKeyed(f, g, pass, front, source);
      StepsKeep(f, g, pass, front);
      StepKeepsKeyed(f, Steps(f, g, pass, front), pass, last, source);
    }
  }

  lemma CreateKeepsKeyed(f: Folding, g: Graph, spec: EdgeSpec, source: GroupId)
    requires NoForeignKeys(f, g.entities, source)
    requires spec.src.Foreign? ==> Apart(spec.src.source, source)
    requires spec.dst.Foreign? ==> Apart(spec.dst.source, source)
    ensures NoForeignKeys(f, CreateEdge(f, g, spec).0.entities, source)
    ensures KeyedIn(f, g.entities, source) ==> KeyedIn(f, CreateEdge(f, g, spec).0.entities, source)
  {
    SideKeepsKeyed(f, g, spec.src, spec.group, source);
    SideKeepsKeyed(f, Between(f, g, spec), spec.dst, spec.group, source);
    CreateEntities(f, g, spec);
  }

  lemma SideKeepsKeyed(f: Folding, g: Graph, spec: EndpointSpec, group: GroupId, source: GroupId)
    requires NoForeignKeys(f, g.entities, source) && (spec.Foreign? ==> Apart(spec.source, source))
    ensures NoForeignKeys(f, SideWrites(f, g, spec, group).entities, source)
    ensures KeyedIn(f, g.entities, source) ==> KeyedIn(f, SideWrites(f, g, spec, group).entities, source)
  {
    if spec.Foreign? && Refuses(f, g.entities, spec, group).None? {
      LookupKeepsKeyed(f, g.entities, spec.source, f.clean(spec.name), SpecKind(f, spec.kind), source);
    }
  }

  /** With the group's index in order a creation is quiet there. */
  lemma KeyedCreateIsQuiet(f: Folding, g: Graph, spec: EdgeSpec, source: GroupId)
    requires KeyedIn(f, g.entities, source) && (spec.src.Foreign? ==> Apart(spec.src.source, source))
    ensures CreateQuiet(f, g, spec, source)
  {
    KeyedSideIsQuiet(f, g, spec.src, spec.group, source);
    SideKeepsKeyed(f, g, spec.src, spec.group, source);
    KeyedSideIsQuiet(f, Between(f, g, spec), spec.dst, spec.group, source);
  }

  lemma SameRowsTrans(a: Entities, b: Entities, c: Entities, group: GroupId)
    requires SameGroupRows(a, b, group) && SameGroupRows(b, c, group)
    ensures SameGroupRows(a, c, group)
  {
  }

  /** The lookups of a creation heal nothing in that group; the second happens only if the first endpoint is
    * not refused. */
  ghost predicate CreateQuiet(f: Folding, g: Graph, spec: EdgeSpec, source: GroupId) {
    && SideQuiet(f, g, spec.src, spec.group, source)
    && (ResolveSide(f, g, spec.src, spec.group).Endpoint? ==>
          SideQuiet(f, Between(f, g, spec), spec.dst, spec.group, source))
  }

  /** Creating an edge, whether or not it succeeds, is an honest step for every group in which it heals nothing,
    * as long as no foreign keys are in the way; other groups' rows may be healed. */
  lemma CreateIsHonest(f: Folding, g: Graph, spec: EdgeSpec, source: GroupId)
    requires WellFormed(g) && CreateQuiet(f, g, spec, source) && NoForeignKeys(f, g.entities, source)
    requires NoForeignKeys(f, CreateEdge(f, g, spec).0.entities, source)
    ensures Honest(f, g, CreateEdge(f, g, spec).0, source)
  {
    var (g', r) := CreateEdge(f, g, spec);
    CreateKeepsRows(f, g, spec, source);
    CreatedEdgeIsInStep(f, g, spec);
    forall rn, side
      ensures PointerHonest(f, g, g', source, rn, side)
    {
      if PointerAt(g', rn, side, source) {
        if r.Created? && rn == r.rn {
          CreatedPointerIsResolved(f, g, spec, side, source);
        } else {
          OldPointerInherits(g, g', r, rn, side, source);
        }
      }
    }
  }

  /** The graph between the two endpoint lookups. */
  function Between(f: Folding, g: Graph, spec: EdgeSpec): Graph {
    SideWrites(f, g, spec.src, spec.group)
  }

  function Looked(f: Folding, g: Graph, spec: EdgeSpec): Graph {
    SideWrites(f, Between(f, g, spec), spec.dst, spec.group)
  }

  lemma CreateKeepsRows(f: Folding, g: Graph, spec: EdgeSpec, source: GroupId)
    requires CreateQuiet(f, g, spec, source)
    ensures SameGroupRows(g.entities, CreateEdge(f, g, spec).0.entities, source)
  {
    SideHeals(f, g, spec.src, spec.group, source);
    CreateEntities(f, g, spec);
    if ResolveSide(f, g, spec.src, spec.group).Endpoint? {
      BothSidesKeepRows(f, g, spec, source);
    }
  }

  lemma BothSidesKeepRows(f: Folding, g: Graph, spec: EdgeSpec, source: GroupId)
    requires CreateQuiet(f, g, spec, source) && ResolveSide(f, g, spec.src, spec.group).Endpoint?
    ensures SameGroupRows(g.entities, Looked(f, g, spec).entities, source)
  {
    var g1, g2 := Between(f, g, spec), Looked(f, g, spec);
    SideHeals(f, g, spec.src, spec.group, source);
    SideHeals(f, g1, spec.dst, spec.group, source);
    SameRowsTrans(g.entities, g1.entities, g2.entities, source);
  }

  /** The entity table a creation leaves behind. */
  lemma CreateEntities(f: Folding, g: Graph, spec: EdgeSpec)
    ensures var (g', r) := CreateEdge(f, g, spec);
            g'.entities == if ResolveSide(f, g, spec.src, spec.group).Rejected? then Between(f, g, spec).entities
                           else Looked(f, g, spec).entities
  {
    var s, d := ResolveSide(f, g, spec.src, spec.group), ResolveSide(f, Between(f, g, spec), spec.dst, spec.group);
    if s.Endpoint? && d.Endpoint? {
      var row := Edge(spec.name, spec.group, None, Pointers(s.pointer, d.pointer), spec.body);
      InsertKeepsEntities(Looked(f, g, spec), row, s.hop, d.hop);
    }
  }

  lemma InsertKeepsEntities(g: Graph, row: Edge, a: Option<Uuid>, b: Option<Uuid>)
    ensures InsertCrossGroup(g, row, a, b).entities == g.entities
  {
  }

  lemma OldPointerInherits(g: Graph, g': Graph, r: Created, rn: Uuid, side: Side, source: GroupId)
    requires r.NotCreated? ==> g' == g.(entities := g'.entities)
    requires r.Created? ==> NewEdgeInStep(g, g', r.rn) && rn != r.rn
    requires PointerAt(g', rn, side, source)
    ensures Inherits(g, rn, g', rn, side, source)
  {
    assert g'.edges[rn] == g.edges[rn] && g'.Hop(rn, side) == g.Hop(rn, side);
  }

  lemma CreatedPointerIsResolved(f: Folding, g: Graph, spec: EdgeSpec, side: Side, source: GroupId)
    requires WellFormed(g) && CreateQuiet(f, g, spec, source) && NoForeignKeys(f, g.entities, source)
    requires NoForeignKeys(f, CreateEdge(f, g, spec).0.entities, source)
    requires var (g', r) := CreateEdge(f, g, spec); r.Created? && PointerAt(g', r.rn, side, source)
    ensures var (g', r) := CreateEdge(f, g, spec); JustResolved(f, g', r.rn, side, source)
  {
    var g1, g2 := Between(f, g, spec), Looked(f, g, spec);
    var s, d := ResolveSide(f, g, spec.src, spec.group), ResolveSide(f, g1, spec.dst, spec.group);
    CreateEntities(f, g, spec);
    SideWritesKeep(f, g, spec.src, spec.group);
    SideWritesKeep(f, g1, spec.dst, spec.group);
    InsertedInStep(g2, Edge(spec.name, spec.group, None, Pointers(s.pointer, d.pointer), spec.body), s.hop, d.hop);
    var e := if side.Src? then s else d;
    if side.Src? {
      SourceResolvedThenNow(f, g, spec, source);
    } else {
      TargetResolvedThenNow(f, g, spec, source);
    }
    InsertedIsResolved(f, g2, CreateEdge(f, g, spec).0, g2.next, side, e, source);
  }

  lemma InsertedIsResolved(f: Folding, g: Graph, g': Graph, rn: Uuid, side: Side, e: Endpoint, source: GroupId)
    requires PointerAt(g', rn, side, source) && e.Endpoint? && e.pointer.Some?
    requires g'.edges[rn].pointers.At(side) == e.pointer && g'.Hop(rn, side) == e.hop
    requires g'.entities == g.entities && g'.positions == g.positions
    requires ResolvesNow(f, g, e, source)
    ensures JustResolved(f, g', rn, side, source)
  {
  }

  /** The endpoint's pointer says what resolution says in `g`, at its position. */
  ghost predicate ResolvesNow(f: Folding, g: Graph, e: Endpoint, source: GroupId)
    requires e.Endpoint? && e.pointer.Some?
  {
    var p := e.pointer.value;
    && ResolveEndpoint(f, g.entities, source, p.name, p.kind) == Resolution(p.state, p.resolved)
    && p.boundAt == g.Position(source) && e.hop == p.resolved
  }

  lemma SourceResolvedThenNow(f: Folding, g: Graph, spec: EdgeSpec, source: GroupId)
    requires NoForeignKeys(f, g.entities, source) && NoForeignKeys(f, Looked(f, g, spec).entities, source)
    requires CreateQuiet(f, g, spec, source)
    requires var s := ResolveSide(f, g, spec.src, spec.group);
             s.Endpoint? && s.pointer.Some? && s.pointer.value.source == source
    ensures ResolvesNow(f, Looked(f, g, spec), ResolveSide(f, g, spec.src, spec.group), source)
  {
    BothSidesKeepRows(f, g, spec, source);
    ResolvedThenNow(f, g, Looked(f, g, spec), spec.src, spec.group, source);
  }

  lemma TargetResolvedThenNow(f: Folding, g: Graph, spec: EdgeSpec, source: GroupId)
    requires CreateQuiet(f, g, spec, source) && ResolveSide(f, g, spec.src, spec.group).Endpoint?
    requires var d := ResolveSide(f, Between(f, g, spec), spec.dst, spec.group);
             d.Endpoint? && d.pointer.Some? && d.pointer.value.source == source
    ensures ResolvesNow(f, Looked(f, g, spec), ResolveSide(f, Between(f, g, spec), spec.dst, spec.group), source)
  {
    assert Looked(f, g, spec) == Between(f, g, spec);
  }

  /** What an endpoint resolved to on `g` is what its pointer resolves to on `g'`. */
  lemma ResolvedThenNow(f: Folding, g: Graph, g': Graph, spec: EndpointSpec, group: GroupId, source: GroupId)
    requires NoForeignKeys(f, g.entities, source) && NoForeignKeys(f, g'.entities, source)
    requires SameGroupRows(g.entities, g'.entities, source) && g'.positions == g.positions
    requires var e := ResolveSide(f, g, spec, group);
             e.Endpoint? && e.pointer.Some? && e.pointer.value.source == source
    ensures ResolvesNow(f, g', ResolveSide(f, g, spec, group), source)
  {
    var p := ResolveSide(f, g, spec, group).pointer.value;
    ResolutionReadsOneGroup(f, g.entities, g'.entities, source, p.name, p.kind);
  }

  // When the gate is not a pure optimisation.

  /** A pointer that the gate would skip says what resolution says now, has the matching hop, and was
    * checked at the present position. */
  ghost predicate SkipIsHarmless(f: Folding, g: Graph, pass: Pass, rn: Uuid, side: Side) {
    PointerAt(g, rn, side, pass.source) && Gated(pass, g.Position(pass.source), PointerOf(g, rn, side)) ==>
      Current(f, g, rn, side) && PointerOf(g, rn, side).boundAt == g.Position(pass.source)
  }

  /** The exact condition, for an edge with pointers on one side or both: the gated and the forced step
    * agree if and only if every skip is harmless, or both steps invalidate the edge - whose condition is
    * `RebindInvariants.Condemned`. A purge that deletes the target without moving the position breaks
    * it. */
  lemma GateIsExact(f: Folding, g: Graph, pass: Pass, rn: Uuid)
    requires WellFormed(g) && CleanRow(f, g, pass.source, rn) && g.Active(rn)
    ensures Step(f, g, pass, rn) == Step(f, g, Forced(pass), rn)
            <==> || (SkipIsHarmless(f, g, pass, rn, Src) && SkipIsHarmless(f, g, pass, rn, Dst))
                 || (Condemned(f, g, pass, rn) && Condemned(f, g, Forced(pass), rn))
  {
    var forced := Forced(pass);
    StepInvalidatesIff(f, g, pass, rn);
    StepInvalidatesIff(f, g, forced, rn);
    if SkipIsHarmless(f, g, pass, rn, Src) && SkipIsHarmless(f, g, pass, rn, Dst) {
      HarmlessSkipsAgree(f, g, pass, rn);
    } else if !Step(f, g, pass, rn).Active(rn) && !Step(f, g, forced, rn).Active(rn) {
      InvalidatedAlike(f, g, pass, rn);
    } else if Step(f, g, pass, rn) == Step(f, g, forced, rn) {
      AgreeingSkipIsHarmless(f, g, pass, rn, Src);
      AgreeingSkipIsHarmless(f, g, pass, rn, Dst);
    }
  }

  lemma HarmlessSkipsAgree(f: Folding, g: Graph, pass: Pass, rn: Uuid)
    requires CleanRow(f, g, pass.source, rn) && g.Active(rn)
    requires SkipIsHarmless(f, g, pass, rn, Src) && SkipIsHarmless(f, g, pass, rn, Dst)
    ensures Step(f, g, pass, rn) == Step(f, g, Forced(pass), rn)
  {
    var a, b, pos := Phase1(f, g, pass, rn), Phase1(f, g, Forced(pass), rn), g.Position(pass.source);
    CleanPhase1(f, g, pass, rn);
    CleanPhase1(f, g, Forced(pass), rn);
    if a.src != b.src {
      NoNewsSrc(g, rn, b.src, b.dst, pos, pass.ts);
    }
    if a.dst != b.dst {
      NoNewsDst(g, rn, a.src, b.dst, pos, pass.ts);
    }
  }

  lemma InvalidatedAlike(f: Folding, g: Graph, pass: Pass, rn: Uuid)
    requires WellFormed(g) && CleanRow(f, g, pass.source, rn) && g.Active(rn)
    requires !Step(f, g, pass, rn).Active(rn) && !Step(f, g, Forced(pass), rn).Active(rn)
    ensures Step(f, g, pass, rn) == Step(f, g, Forced(pass), rn)
  {
    CleanInvalidation(f, g, pass, rn);
    CleanInvalidation(f, g, Forced(pass), rn);
  }

  lemma CleanInvalidation(f: Folding, g: Graph, pass: Pass, rn: Uuid)
    requires WellFormed(g) && CleanRow(f, g, pass.source, rn) && g.Active(rn) && !Step(f, g, pass, rn).Active(rn)
    ensures Step(f, g, pass, rn) == g.Invalidate(rn, pass.ts)
  {
    var found := Phase1(f, g, pass, rn);
    CleanPhase1(f, g, pass, rn);
    SettleInvalidates(g, rn, found.src, found.dst, g.Position(pass.source), pass.ts);
  }

  lemma AgreeingSkipIsHarmless(f: Folding, g: Graph, pass: Pass, rn: Uuid, side: Side)
    requires WellFormed(g) && CleanRow(f, g, pass.source, rn) && g.Active(rn)
    requires Step(f, g, pass, rn) == Step(f, g, Forced(pass), rn) && Step(f, g, pass, rn).Active(rn)
    ensures SkipIsHarmless(f, g, pass, rn, side)
  {
    CleanStep(f, g, pass, rn);
    CleanStep(f, g, Forced(pass), rn);
    var g' := Step(f, g, pass, rn);
    assert SideOutcome(f, g, pass, rn, side, g') && SideOutcome(f, g, Forced(pass), rn, side, g');
  }
}
