/** What a whole rebind pass guarantees: bound survivors, representations in step, no self-loop and
  * no duplicate added, and nothing written outside the edges that point into the source group. */
module RebindInvariants {
  import opened Common
  import opened PropertyGraph
  import opened NameLookup
  import opened PointerResolution
  import opened Rebind

  /** The entity table that one side of row `rn` is resolved against when its turn comes in `g`: the
    * source side's lookup may heal rows before the target side is looked up. */
  function TableFor(f: Folding, g: Graph, pass: Pass, rn: Uuid, side: Side): Entities
    requires rn in g.edges
  {
    if side.Src? then g.entities
    else FindWrites(f, g.entities, pass, g.Position(pass.source), g.edges[rn].pointers.src)
  }

  /** The side as the pass leaves it, against the graph `g` it started from: a checked side records
    * what resolution answers on `table`, at the present position, and has a hop to exactly that uuid
    * or none; any other side is as it was. */
  ghost predicate SideRebound(f: Folding, g: Graph, pass: Pass, rn: Uuid, side: Side, table: Entities, g': Graph)
    requires rn in g.edges && rn in g'.edges
  {
    var pos, p, p' := g.Position(pass.source), g.edges[rn].pointers.At(side), g'.edges[rn].pointers.At(side);
    if Checks(pass, pos, p) then
      var r := ResolveEndpoint(f, table, pass.source, p.value.name, p.value.kind);
      && p' == Some(p.value.(resolved := r.uuid, boundAt := pos, state := r.state))
      && g'.Hop(rn, side) == r.uuid
      && (r.state.Bound? <==> r.uuid.Some?)
    else
      p' == p && g'.Hop(rn, side) == g.Hop(rn, side)
  }

  /** `turn` is the graph in which the row's turn came. */
  ghost predicate EdgeRebound(f: Folding, g: Graph, turn: Graph, pass: Pass, rn: Uuid, g': Graph) {
    && rn in g.edges && rn in turn.edges && rn in g'.edges
    && (g'.Active(rn) ==>
          && SideRebound(f, g, pass, rn, Src, TableFor(f, turn, pass, rn, Src), g')
          && SideRebound(f, g, pass, rn, Dst, TableFor(f, turn, pass, rn, Dst), g'))
  }

  lemma StepRebinds(f: Folding, g: Graph, pass: Pass, rn: Uuid)
    requires WellFormed(g) && rn in g.edges
    ensures EdgeRebound(f, g, g, pass, rn, Step(f, g, pass, rn))
  {
    var found, g' := Phase1(f, g, pass, rn), Step(f, g, pass, rn);
    StepKeeps(f, g, pass, rn);
    if g'.Active(rn) {
      StillActive(f, g, pass, rn);
      SettledSide(f, g, pass, rn, g', found.src, found.dst, Src);
      SettledSide(f, g, pass, rn, g', found.src, found.dst, Dst);
    }
  }

  /** An edge that is active after its step has the prospective hops and the rewritten pointers. */
  lemma StillActive(f: Folding, g: Graph, pass: Pass, rn: Uuid)
    requires WellFormed(g) && rn in g.edges && Step(f, g, pass, rn).Active(rn)
    ensures var found, pos, g' := Phase1(f, g, pass, rn), g.Position(pass.source), Step(f, g, pass, rn);
            && g'.edges[rn].pointers == NewPointers(g.edges[rn].pointers, found.src, found.dst, pos)
            && g'.Hop(rn, Src) == Prospective(found.src, g.Hop(rn, Src))
            && g'.Hop(rn, Dst) == Prospective(found.dst, g.Hop(rn, Dst))
            && g'.entities == found.g.entities
  {
    var found := Phase1(f, g, pass, rn);
    HealedWellFormed(g, found.g);
    SettledActive(found.g, rn, found.src, found.dst, g.Position(pass.source), pass.ts);
  }

  lemma SettledActive(g: Graph, rn: Uuid, s: Option<Resolution>, d: Option<Resolution>, pos: Option<nat>, ts: Timestamp)
    requires rn in g.edges && WellFormed(g) && LegalFind(g, s) && LegalFind(g, d)
    requires Settle(g, rn, s, d, pos, ts).Active(rn)
    ensures var g' := Settle(g, rn, s, d, pos, ts);
            && g'.edges[rn].pointers == NewPointers(g.edges[rn].pointers, s, d, pos)
            && g'.Hop(rn, Src) == Prospective(s, g.Hop(rn, Src))
            && g'.Hop(rn, Dst) == Prospective(d, g.Hop(rn, Dst))
            && g'.entities == g.entities
  {
    var outcome := Judge(g, rn, s, d);
    if outcome.Survives? {
      SurvivorSettled(g, rn, s, d, pos);
    } else {
      assert outcome.Untouched?;
    }
  }

  lemma SettledSide(f: Folding, g: Graph, pass: Pass, rn: Uuid, g': Graph,
                    s: Option<Resolution>, d: Option<Resolution>, side: Side)
    requires rn in g.edges && rn in g'.edges
    requires var pos, ps := g.Position(pass.source), g.edges[rn].pointers;
             && s == Find(f, TableFor(f, g, pass, rn, Src), pass, pos, ps.src)
             && d == Find(f, TableFor(f, g, pass, rn, Dst), pass, pos, ps.dst)
             && g'.edges[rn].pointers == NewPointers(ps, s, d, pos)
    requires g'.Hop(rn, Src) == Prospective(s, g.Hop(rn, Src)) && g'.Hop(rn, Dst) == Prospective(d, g.Hop(rn, Dst))
    ensures SideRebound(f, g, pass, rn, side, TableFor(f, g, pass, rn, side), g')
  {
  }

  /** Row `rn` is the same edge with the same hops in both graphs, and the positions agree. */
  ghost predicate SameRow(g: Graph, g': Graph, rn: Uuid) {
    && rn in g.edges && rn in g'.edges && g'.edges[rn] == g.edges[rn]
    && g'.Hop(rn, Src) == g.Hop(rn, Src) && g'.Hop(rn, Dst) == g.Hop(rn, Dst)
    && g'.positions == g.positions
  }

  lemma {:induction false} StepsKeep(f: Folding, g: Graph, pass: Pass, order: seq<Uuid>)
    requires WellFormed(g)
    ensures var g' := Steps(f, g, pass, order);
            && WellFormed(g')
            && g'.edges.Keys == g.edges.Keys && g'.positions == g.positions && g'.next == g.next
            && SameIdentities(g.entities, g'.entities)
            && forall rn <- g.edges :: rn !in order ==> SameRow(g, g', rn) && g'.Direct(rn) == g.Direct(rn)
  {
    if order != [] {
      var front, last := order[..|order| - 1], order[|order| - 1];
      assert order == front + [last];
      StepsKeep(f, g, pass, front);
      StepKeeps(f, Steps(f, g, pass, front), pass, last);
    }
  }

  lemma RowKeptByStep(f: Folding, g: Graph, pass: Pass, last: Uuid, rn: Uuid)
    requires WellFormed(g) && rn in g.edges && rn != last
    ensures SameRow(g, Step(f, g, pass, last), rn)
  {
    StepKeeps(f, g, pass, last);
  }

  /** What a candidate's own turn leaves of it stands until the end of the pass. */
  lemma {:induction false} TurnStands(f: Folding, g: Graph, pass: Pass, order: seq<Uuid>, i: nat)
    requires WellFormed(g) && Distinct(order) && i < |order| && order[i] in g.edges
    ensures SameRow(Steps(f, g, pass, order[..i + 1]), Steps(f, g, pass, order), order[i])
  {
    StepsKeep(f, g, pass, order[..i + 1]);
    if i == |order| - 1 {
      assert order[..i + 1] == order;
    } else {
      var front, last := order[..|order| - 1], order[|order| - 1];
      TurnStands(f, g, pass, front, i);
      assert front[..i + 1] == order[..i + 1];
      StepsKeep(f, g, pass, front);
      RowKeptByStep(f, Steps(f, g, pass, front), pass, last, order[i]);
    }
  }

  lemma NotYet(order: seq<Uuid>, i: nat)
    requires Distinct(order) && i < |order|
    ensures order[i] !in order[..i]
  {
    assert forall j :: 0 <= j < i ==> order[..i][j] == order[j] != order[i];
  }

  lemma StepsAt(f: Folding, g: Graph, pass: Pass, order: seq<Uuid>, i: nat)
    requires i < |order|
    ensures Steps(f, g, pass, order[..i + 1]) == Step(f, Steps(f, g, pass, order[..i]), pass, order[i])
  {
    assert order[..i + 1][..i] == order[..i];
  }

  /** Until its turn a candidate is as the pass found it; afterwards, as its turn left it. */
  lemma TurnOf(f: Folding, g: Graph, pass: Pass, order: seq<Uuid>, i: nat)
    requires WellFormed(g) && Distinct(order) && i < |order| && order[i] in g.edges
    ensures var turn := Steps(f, g, pass, order[..i]);
            && WellFormed(turn) && SameRow(g, turn, order[i])
            && SameRow(Step(f, turn, pass, order[i]), Steps(f, g, pass, order), order[i])
  {
    NotYet(order, i);
    StepsKeep(f, g, pass, order[..i]);
    StepsAt(f, g, pass, order, i);
    TurnStands(f, g, pass, order, i);
  }

  lemma ReboundCarries(f: Folding, g: Graph, turn: Graph, pass: Pass, rn: Uuid, after: Graph, g': Graph)
    requires SameRow(g, turn, rn) && SameRow(after, g', rn) && EdgeRebound(f, turn, turn, pass, rn, after)
    ensures EdgeRebound(f, g, turn, pass, rn, g')
  {
    assert g.Hop(rn, Src) == turn.Hop(rn, Src) && g.Hop(rn, Dst) == turn.Hop(rn, Dst);
    assert g'.Hop(rn, Src) == after.Hop(rn, Src) && g'.Hop(rn, Dst) == after.Hop(rn, Dst);
  }

  /** After a pass every candidate that is still active records, on each re-checked side, what
    * resolution answered at its turn, and has a hop to exactly that uuid when it is Bound and no hop
    * otherwise; every other side and every other row is untouched; and the compatibility rel exists
    * exactly when both hops do. */
  lemma PassRebindsEveryCandidate(f: Folding, g: Graph, pass: Pass, order: seq<Uuid>)
    requires WellFormed(g) && Candidates(g, order)
    ensures var g' := Steps(f, g, pass, order);
            && WellFormed(g')
            && SameIdentities(g.entities, g'.entities)
            && (forall rn <- g.edges :: rn !in order ==> SameRow(g, g', rn) && g'.Direct(rn) == g.Direct(rn))
    ensures forall i :: 0 <= i < |order| ==>
              EdgeRebound(f, g, Steps(f, g, pass, order[..i]), pass, order[i], Steps(f, g, pass, order))
  {
    StepsKeep(f, g, pass, order);
    forall i | 0 <= i < |order|
      ensures EdgeRebound(f, g, Steps(f, g, pass, order[..i]), pass, order[i], Steps(f, g, pass, order))
    {
      assert g.Active(order[i]);
      var turn := Steps(f, g, pass, order[..i]);
      TurnOf(f, g, pass, order, i);
      StepRebinds(f, turn, pass, order[i]);
      ReboundCarries(f, g, turn, pass, order[i], Step(f, turn, pass, order[i]), Steps(f, g, pass, order));
    }
  }

  lemma OneRebound(f: Folding, g: Graph, pass: Pass, order: seq<Uuid>, i: nat)
    requires WellFormed(g) && Candidates(g, order) && i < |order|
    ensures EdgeRebound(f, g, Steps(f, g, pass, order[..i]), pass, order[i], Steps(f, g, pass, order))
  {
    PassRebindsEveryCandidate(f, g, pass, order);
  }

  /** A row that is active and carries a pointer at the end was a candidate at the start. */
  lemma CandidateBefore(g: Graph, g': Graph, order: seq<Uuid>, rn: Uuid)
    requires Candidates(g, order) && g'.edges.Keys == g.edges.Keys
    requires forall q <- g.edges :: q !in order ==> SameRow(g, g', q)
    requires g'.Active(rn) && !g'.edges[rn].pointers.Empty()
    ensures rn in order && g.Active(rn)
  {
  }

  lemma SettleKeepsEntities(g: Graph, rn: Uuid, s: Option<Resolution>, d: Option<Resolution>, pos: Option<nat>,
                            ts: Timestamp)
    requires WellFormed(g) && rn in g.edges && LegalFind(g, s) && LegalFind(g, d)
    ensures Settle(g, rn, s, d, pos, ts).entities == g.entities
  {
    if Judge(g, rn, s, d).Survives? {
      SurvivorSettled(g, rn, s, d, pos);
    }
  }

  // Which candidates are invalidated.

  /** The endpoint the edge would have on one side if it survived. */
  function Prospect(f: Folding, g: Graph, pass: Pass, rn: Uuid, side: Side): Option<Uuid>
    requires rn in g.edges
  {
    Prospective(Find(f, TableFor(f, g, pass, rn, side), pass, g.Position(pass.source), g.edges[rn].pointers.At(side)),
                g.Hop(rn, side))
  }

  /** The side is re-checked, and its answer is not the cached one. */
  predicate Differs(f: Folding, g: Graph, pass: Pass, rn: Uuid, side: Side)
    requires rn in g.edges
  {
    var p := g.edges[rn].pointers.At(side);
    && Checks(pass, g.Position(pass.source), p)
    && ResolveEndpoint(f, TableFor(f, g, pass, rn, side), pass.source, p.value.name, p.value.kind).uuid
       != p.value.resolved
  }

  /** Some answer differs from its cache, both ends would be bound, and the edge would be a self-loop or
    * an active row already joins the pair. */
  ghost predicate Condemned(f: Folding, g: Graph, pass: Pass, rn: Uuid)
    requires rn in g.edges
  {
    var a, b := Prospect(f, g, pass, rn, Src), Prospect(f, g, pass, rn, Dst);
    && (Differs(f, g, pass, rn, Src) || Differs(f, g, pass, rn, Dst))
    && a.Some? && b.Some?
    && (a == b || exists q :: g.Links(q, a.value, b.value, g.edges[rn].name, g.edges[rn].group))
  }

  lemma FoundSides(f: Folding, g: Graph, pass: Pass, rn: Uuid)
    requires rn in g.edges
    ensures var found, ps := Phase1(f, g, pass, rn), g.edges[rn].pointers;
            && Prospective(found.src, g.Hop(rn, Src)) == Prospect(f, g, pass, rn, Src)
            && Prospective(found.dst, g.Hop(rn, Dst)) == Prospect(f, g, pass, rn, Dst)
            && (Changed(found.src, ps.src) <==> Differs(f, g, pass, rn, Src))
            && (Changed(found.dst, ps.dst) <==> Differs(f, g, pass, rn, Dst))
            && (Differs(f, g, pass, rn, Src) ==> found.src.Some?)
            && (Differs(f, g, pass, rn, Dst) ==> found.dst.Some?)
  {
  }

  /** A candidate is invalidated at its turn if and only if it is condemned. */
  lemma StepInvalidatesIff(f: Folding, g: Graph, pass: Pass, rn: Uuid)
    requires WellFormed(g) && g.Active(rn)
    ensures !Step(f, g, pass, rn).Active(rn) <==> Condemned(f, g, pass, rn)
  {
    var found := Phase1(f, g, pass, rn);
    FoundSides(f, g, pass, rn);
    HealedWellFormed(g, found.g);
    SettleInvalidates(found.g, rn, found.src, found.dst, g.Position(pass.source), pass.ts);
    JudgedOnHealed(g, found.g, rn, found.src, found.dst);
  }

  /** The branch taken on the healed table, in terms of the graph before healing. */
  lemma JudgedOnHealed(g: Graph, g1: Graph, rn: Uuid, s: Option<Resolution>, d: Option<Resolution>)
    requires g1 == g.(entities := g1.entities) && rn in g.edges
    ensures var a, b, ps := Prospective(s, g.Hop(rn, Src)), Prospective(d, g.Hop(rn, Dst)), g.edges[rn].pointers;
            Judge(g1, rn, s, d) in {SelfLooped, Duplicate}
            <==> && (Changed(s, ps.src) || Changed(d, ps.dst)) && a.Some? && b.Some?
                 && (a == b || exists q :: g.Links(q, a.value, b.value, g.edges[rn].name, g.edges[rn].group))
  {
    var a, b := Prospective(s, g.Hop(rn, Src)), Prospective(d, g.Hop(rn, Dst));
    assert g1.Hop(rn, Src) == g.Hop(rn, Src) && g1.Hop(rn, Dst) == g.Hop(rn, Dst);
    if a.Some? && b.Some? {
      HealingKeepsEdges(g, g1, a.value, b.value, g.edges[rn].name, g.edges[rn].group);
    }
  }

  lemma SettleInvalidates(g: Graph, rn: Uuid, s: Option<Resolution>, d: Option<Resolution>, pos: Option<nat>,
                          ts: Timestamp)
    requires WellFormed(g) && g.Active(rn) && LegalFind(g, s) && LegalFind(g, d)
    ensures Settle(g, rn, s, d, pos, ts).Active(rn) <==> Judge(g, rn, s, d) in {Untouched, Survives}
  {
    if Judge(g, rn, s, d).Survives? {
      SurvivorSettled(g, rn, s, d, pos);
    }
  }

  /** With matching caches a condemned edge is a self-loop or repeats another row's fact, never its own. */
  lemma CondemnedByAnother(f: Folding, g: Graph, pass: Pass, rn: Uuid)
    requires g.Active(rn) && CacheMatches(g, pass.source) && Condemned(f, g, pass, rn)
    ensures var a, b := Prospect(f, g, pass, rn, Src), Prospect(f, g, pass, rn, Dst);
            a == b || exists q :: q != rn && g.Links(q, a.value, b.value, g.edges[rn].name, g.edges[rn].group)
  {
    var a, b := Prospect(f, g, pass, rn, Src), Prospect(f, g, pass, rn, Dst);
    assert CacheMatchesAt(g, pass.source, rn, Src) && CacheMatchesAt(g, pass.source, rn, Dst);
    if a != b {
      var q :| g.Links(q, a.value, b.value, g.edges[rn].name, g.edges[rn].group);
      HopsOf(g, q);
      assert q != rn;
    }
  }

  /** A pass invalidates exactly the candidates that are condemned at their turn. */
  lemma PassInvalidatesExactly(f: Folding, g: Graph, pass: Pass, order: seq<Uuid>)
    requires WellFormed(g) && Candidates(g, order)
    ensures forall i :: 0 <= i < |order| ==>
              var turn := Steps(f, g, pass, order[..i]);
              && turn.Active(order[i])
              && (!Steps(f, g, pass, order).Active(order[i]) <==> Condemned(f, turn, pass, order[i]))
    ensures forall rn <- g.edges :: rn !in order ==> (Steps(f, g, pass, order).Active(rn) <==> g.Active(rn))
  {
    StepsKeep(f, g, pass, order);
    forall i | 0 <= i < |order|
      ensures var turn := Steps(f, g, pass, order[..i]);
              && turn.Active(order[i])
              && (!Steps(f, g, pass, order).Active(order[i]) <==> Condemned(f, turn, pass, order[i]))
    {
      assert g.Active(order[i]);
      TurnOf(f, g, pass, order, i);
      StepInvalidatesIff(f, Steps(f, g, pass, order[..i]), pass, order[i]);
    }
  }

  // No self-loop and no duplicate.

  /** The cached resolution of every pointer into the group is the hop that is there. */
  ghost predicate CacheMatches(g: Graph, source: GroupId) {
    forall rn, side :: CacheMatchesAt(g, source, rn, side)
  }

  ghost predicate CacheMatchesAt(g: Graph, source: GroupId, rn: Uuid, side: Side) {
    (&& g.Active(rn)
     && g.edges[rn].pointers.At(side).Some?
     && g.edges[rn].pointers.At(side).value.source == source)
    ==> g.edges[rn].pointers.At(side).value.resolved == g.Hop(rn, side)
  }

  lemma StepKeepsCache(f: Folding, g: Graph, pass: Pass, rn: Uuid)
    requires WellFormed(g) && rn in g.edges && CacheMatches(g, pass.source)
    ensures CacheMatches(Step(f, g, pass, rn), pass.source)
  {
    var g' := Step(f, g, pass, rn);
    StepKeeps(f, g, pass, rn);
    StepRebinds(f, g, pass, rn);
    forall q, side
      ensures CacheMatchesAt(g', pass.source, q, side)
    {
      assert CacheMatchesAt(g, pass.source, q, side);
      if q == rn && g'.Active(rn) {
        assert SideRebound(f, g, pass, rn, side, TableFor(f, g, pass, rn, side), g');
        StepKeepsActivity(f, g, pass, rn);
      }
    }
  }

  lemma StepKeepsActivity(f: Folding, g: Graph, pass: Pass, rn: Uuid)
    requires WellFormed(g) && rn in g.edges && Step(f, g, pass, rn).Active(rn)
    ensures g.Active(rn)
  {
    var found := Phase1(f, g, pass, rn);
    HealedWellFormed(g, found.g);
    ActiveBefore(found.g, rn, found.src, found.dst, g.Position(pass.source), pass.ts);
  }

  lemma ActiveBefore(g: Graph, rn: Uuid, s: Option<Resolution>, d: Option<Resolution>, pos: Option<nat>, ts: Timestamp)
    requires WellFormed(g) && rn in g.edges && LegalFind(g, s) && LegalFind(g, d)
    requires Settle(g, rn, s, d, pos, ts).Active(rn)
    ensures g.Active(rn)
  {
    if Judge(g, rn, s, d).Survives? {
      SurvivorSettled(g, rn, s, d, pos);
    }
  }

  /** A survivor either keeps both its hops or ends on a pair that no other active edge of its name
    * and group has, and that is not a self-loop. */
  lemma SurvivorIsNew(f: Folding, g: Graph, pass: Pass, rn: Uuid)
    requires WellFormed(g) && rn in g.edges && CacheMatches(g, pass.source)
    requires var g' := Step(f, g, pass, rn); g'.Active(rn) && g'.Complete(rn)
    ensures var g' := Step(f, g, pass, rn);
            || (g'.Hop(rn, Src) == g.Hop(rn, Src) && g'.Hop(rn, Dst) == g.Hop(rn, Dst))
            || (g'.src[rn] != g'.dst[rn]
                && !g.HasDirectedEdge(g'.src[rn], g'.dst[rn], g.edges[rn].name, g.edges[rn].group))
  {
    var found, g' := Phase1(f, g, pass, rn), Step(f, g, pass, rn);
    StepKeepsActivity(f, g, pass, rn);
    StillActive(f, g, pass, rn);
    HopsOf(g', rn);
    if Differs(f, g, pass, rn, Src) || Differs(f, g, pass, rn, Dst) {
      StepInvalidatesIff(f, g, pass, rn);
      FoundSides(f, g, pass, rn);
    } else {
      FoundSides(f, g, pass, rn);
      assert CacheMatchesAt(g, pass.source, rn, Src) && CacheMatchesAt(g, pass.source, rn, Dst);
      UnchangedSideStays(g, pass, rn, Src, found.src);
      UnchangedSideStays(g, pass, rn, Dst, found.dst);
    }
  }

  lemma UnchangedSideStays(g: Graph, pass: Pass, rn: Uuid, side: Side, r: Option<Resolution>)
    requires g.Active(rn) && CacheMatchesAt(g, pass.source, rn, side)
    requires r.Some? ==> Points(pass, g.edges[rn].pointers.At(side))
    requires !Changed(r, g.edges[rn].pointers.At(side))
    ensures Prospective(r, g.Hop(rn, side)) == g.Hop(rn, side)
  {
  }

  lemma HealingKeepsEdges(g: Graph, g1: Graph, a: Uuid, b: Uuid, name: Name, group: GroupId)
    requires g1 == g.(entities := g1.entities)
    ensures g1.HasDirectedEdge(a, b, name, group) <==> g.HasDirectedEdge(a, b, name, group)
  {
    if rn :| rn in g.edges && g.Links(rn, a, b, name, group) {
      assert g1.Links(rn, a, b, name, group);
    }
    if rn :| rn in g1.edges && g1.Links(rn, a, b, name, group) {
      assert g.Links(rn, a, b, name, group);
    }
  }

  lemma StepAddsNoDuplicate(f: Folding, g: Graph, pass: Pass, rn: Uuid, r: Uuid, q: Uuid)
    requires WellFormed(g) && rn in g.edges && CacheMatches(g, pass.source)
    requires Duplicates(Step(f, g, pass, rn), r, q)
    ensures Duplicates(g, r, q)
  {
    var g' := Step(f, g, pass, rn);
    StepKeeps(f, g, pass, rn);
    HopsOf(g', r);
    HopsOf(g', q);
    if r == rn || q == rn {
      SurvivorIsNew(f, g, pass, rn);
      StepKeepsActivity(f, g, pass, rn);
      var other := if r == rn then q else r;
      assert g'.Hop(other, Src) == g.Hop(other, Src) && g'.Hop(other, Dst) == g.Hop(other, Dst);
      assert g.Links(other, g'.src[rn], g'.dst[rn], g.edges[rn].name, g.edges[rn].group);
      assert g.HasDirectedEdge(g'.src[rn], g'.dst[rn], g.edges[rn].name, g.edges[rn].group);
    }
    assert g'.Hop(r, Src) == g.Hop(r, Src) && g'.Hop(r, Dst) == g.Hop(r, Dst);
    assert g'.Hop(q, Src) == g.Hop(q, Src) && g'.Hop(q, Dst) == g.Hop(q, Dst);
  }

  lemma HopsOf(g: Graph, rn: Uuid)
    requires g.Complete(rn)
    ensures g.Hop(rn, Src) == Some(g.src[rn]) && g.Hop(rn, Dst) == Some(g.dst[rn])
  {
  }

  lemma StepAddsNoSelfLoop(f: Folding, g: Graph, pass: Pass, rn: Uuid, q: Uuid)
    requires WellFormed(g) && rn in g.edges && CacheMatches(g, pass.source)
    requires SelfLoop(Step(f, g, pass, rn), q)
    ensures SelfLoop(g, q)
  {
    var g' := Step(f, g, pass, rn);
    StepKeeps(f, g, pass, rn);
    HopsOf(g', q);
    if q == rn {
      SurvivorIsNew(f, g, pass, rn);
      StepKeepsActivity(f, g, pass, rn);
    }
    assert g'.Hop(q, Src) == g.Hop(q, Src) && g'.Hop(q, Dst) == g.Hop(q, Dst);
  }

  /** From a state whose caches match their hops, a pass keeps them matched and adds neither a
    * self-loop nor a second active edge with the same ends, name and group. */
  lemma {:induction false} PassAddsNothing(f: Folding, g: Graph, pass: Pass, order: seq<Uuid>)
    requires WellFormed(g) && CacheMatches(g, pass.source)
    requires forall rn <- order :: rn in g.edges
    ensures var g' := Steps(f, g, pass, order);
            && CacheMatches(g', pass.source)
            && (forall r, q :: Duplicates(g', r, q) ==> Duplicates(g, r, q))
            && (forall q :: SelfLoop(g', q) ==> SelfLoop(g, q))
  {
    if order != [] {
      var front, last := order[..|order| - 1], order[|order| - 1];
      assert order == front + [last];
      PassAddsNothing(f, g, pass, front);
      StepsKeep(f, g, pass, front);
      var before, after := Steps(f, g, pass, front), Steps(f, g, pass, order);
      StepKeepsCache(f, before, pass, last);
      forall r, q | Duplicates(after, r, q)
        ensures Duplicates(g, r, q)
      {
        StepAddsNoDuplicate(f, before, pass, last, r, q);
      }
      forall q | SelfLoop(after, q)
        ensures SelfLoop(g, q)
      {
        StepAddsNoSelfLoop(f, before, pass, last, q);
      }
    }
  }

  lemma PassKeepsUniqueness(f: Folding, g: Graph, pass: Pass, order: seq<Uuid>)
    requires WellFormed(g) && CacheMatches(g, pass.source) && Candidates(g, order) && UniqueActive(g)
    ensures UniqueActive(Steps(f, g, pass, order))
  {
    forall rn <- order
      ensures rn in g.edges
    {
      assert g.Active(rn);
    }
    PassAddsNothing(f, g, pass, order);
    UniqueMeansNoDuplicates(g);
    UniqueMeansNoDuplicates(Steps(f, g, pass, order));
  }

  /** Why the cache must match: when every re-checked side resolves to the hop that is already there, the
    * edge finds itself as its own duplicate and is invalidated if and only if some re-checked side has
    * another uuid cached. */
  lemma MismatchedCacheInvalidatesTheEdge(f: Folding, g: Graph, pass: Pass, rn: Uuid)
    requires WellFormed(g) && g.Active(rn) && g.Complete(rn) && g.src[rn] != g.dst[rn]
    requires forall side: Side :: Prospect(f, g, pass, rn, side) == g.Hop(rn, side)
    ensures !Step(f, g, pass, rn).Active(rn)
            <==> exists side: Side ::
                   && Checks(pass, g.Position(pass.source), g.edges[rn].pointers.At(side))
                   && g.edges[rn].pointers.At(side).value.resolved != g.Hop(rn, side)
  {
    StepInvalidatesIff(f, g, pass, rn);
    assert g.Links(rn, g.src[rn], g.dst[rn], g.edges[rn].name, g.edges[rn].group);
    assert Prospect(f, g, pass, rn, Src) == Some(g.src[rn]) && Prospect(f, g, pass, rn, Dst) == Some(g.dst[rn]);
    DiffersFromTheHop(f, g, pass, rn, Src);
    DiffersFromTheHop(f, g, pass, rn, Dst);
    if side: Side :| Checks(pass, g.Position(pass.source), g.edges[rn].pointers.At(side))
                     && g.edges[rn].pointers.At(side).value.resolved != g.Hop(rn, side) {
      assert side == Src || side == Dst;
    }
  }

  lemma DiffersFromTheHop(f: Folding, g: Graph, pass: Pass, rn: Uuid, side: Side)
    requires rn in g.edges && Prospect(f, g, pass, rn, side) == g.Hop(rn, side)
    ensures Differs(f, g, pass, rn, side)
            <==> && Checks(pass, g.Position(pass.source), g.edges[rn].pointers.At(side))
                 && g.edges[rn].pointers.At(side).value.resolved != g.Hop(rn, side)
  {
  }
}
