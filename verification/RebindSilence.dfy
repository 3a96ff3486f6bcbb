/** When a pass changes nothing: the exact condition for any pass, and for the second of two passes with
  * no change in between. Healing the table can change what a name resolves to, so the second pass is
  * not always silent. */
module RebindSilence {
  import opened Common
  import opened PropertyGraph
  import opened NameLookup
  import opened PointerResolution
  import opened Rebind
  import opened RebindInvariants
  import opened RebindGate

  // Healing is never undone.

  function HealedRow(f: Folding, e: Entity): Entity {
    e.(storedKind := Some(e.Kind()), lookupKey := Some(LookupKey(f, e.group, e.Kind(), e.name)))
  }

  /** Each row is as it was, or healed. */
  ghost predicate HealsOnly(f: Folding, ents: Entities, ents': Entities) {
    && ents'.Keys == ents.Keys
    && forall u <- ents :: ents'[u] == ents[u] || ents'[u] == HealedRow(f, ents[u])
  }

  lemma HealsTwice(f: Folding, a: Entities, b: Entities, c: Entities)
    requires HealsOnly(f, a, b) && HealsOnly(f, b, c)
    ensures HealsOnly(f, a, c)
    ensures c == a ==> b == a
  {
    if c == a {
      forall u <- a
        ensures b[u] == a[u]
      {
        assert HealedRow(f, HealedRow(f, a[u])) == HealedRow(f, a[u]);
      }
    }
  }

  lemma LookupHealsOnly(f: Folding, ents: Entities, group: GroupId, name: Name, kind: Option<Kind>)
    ensures HealsOnly(f, ents, LookupWrites(f, ents, group, name, kind))
  {
  }

  lemma FindHealsOnly(f: Folding, ents: Entities, pass: Pass, pos: Option<nat>, p: Option<Pointer>)
    ensures HealsOnly(f, ents, FindWrites(f, ents, pass, pos, p))
  {
    if Checks(pass, pos, p) {
      LookupHealsOnly(f, ents, pass.source, p.value.name, p.value.kind);
    }
  }

  /** The table between the two lookups of a step, and after it. */
  lemma StepHealsOnly(f: Folding, g: Graph, pass: Pass, rn: Uuid)
    requires WellFormed(g) && rn in g.edges
    ensures var ents1, g' := TableFor(f, g, pass, rn, Dst), Step(f, g, pass, rn);
            && g'.entities == FindWrites(f, ents1, pass, g.Position(pass.source), g.edges[rn].pointers.dst)
            && HealsOnly(f, g.entities, ents1) && HealsOnly(f, ents1, g'.entities)
            && HealsOnly(f, g.entities, g'.entities)
  {
    var ps, pos := g.edges[rn].pointers, g.Position(pass.source);
    var ents1 := TableFor(f, g, pass, rn, Dst);
    FindHealsOnly(f, g.entities, pass, pos, ps.src);
    FindHealsOnly(f, ents1, pass, pos, ps.dst);
    HealsTwice(f, g.entities, ents1, FindWrites(f, ents1, pass, pos, ps.dst));
    var found := Phase1(f, g, pass, rn);
    HealedWellFormed(g, found.g);
    SettleKeepsEntities(found.g, rn, found.src, found.dst, pos, pass.ts);
  }

  lemma {:induction false} StepsHealOnly(f: Folding, g: Graph, pass: Pass, order: seq<Uuid>)
    requires WellFormed(g)
    ensures HealsOnly(f, g.entities, Steps(f, g, pass, order).entities)
  {
    if order != [] {
      var front, last := order[..|order| - 1], order[|order| - 1];
      StepsHealOnly(f, g, pass, front);
      StepsKeep(f, g, pass, front);
      var before := Steps(f, g, pass, front);
      if last in before.edges {
        StepHealsOnly(f, before, pass, last);
        HealsTwice(f, g.entities, before.entities, Step(f, before, pass, last).entities);
      }
    }
  }

  // One candidate.

  /** A side that is re-checked looks up without healing, finds what it already records, and was checked
    * at the present position. */
  ghost predicate SilentAt(f: Folding, g: Graph, pass: Pass, rn: Uuid, side: Side) {
    PointerAt(g, rn, side, pass.source) && Checks(pass, g.Position(pass.source), g.edges[rn].pointers.At(side)) ==>
      && QuietLookup(f, g.entities, PointerOf(g, rn, side))
      && Current(f, g, rn, side)
      && PointerOf(g, rn, side).boundAt == g.Position(pass.source)
  }

  /** When the checked lookups heal nothing, both sides are resolved against the table as it is. */
  lemma QuietTable(f: Folding, g: Graph, pass: Pass, rn: Uuid, side: Side)
    requires rn in g.edges
    requires var p := g.edges[rn].pointers.At(Src);
             Checks(pass, g.Position(pass.source), p) ==> QuietLookup(f, g.entities, p.value)
    ensures TableFor(f, g, pass, rn, side) == g.entities
  {
  }

  lemma SilentStep(f: Folding, g: Graph, pass: Pass, rn: Uuid)
    requires g.Active(rn) && SilentAt(f, g, pass, rn, Src) && SilentAt(f, g, pass, rn, Dst)
    ensures Step(f, g, pass, rn) == g
  {
    var found, pos, ps := Phase1(f, g, pass, rn), g.Position(pass.source), g.edges[rn].pointers;
    assert ps.At(Src) == ps.src && ps.At(Dst) == ps.dst;
    QuietTable(f, g, pass, rn, Dst);
    assert found.g == g;
    assert found.src == Find(f, g.entities, pass, pos, ps.src) && found.dst == Find(f, g.entities, pass, pos, ps.dst);
    SilentIsNoNews(f, g, pass, rn, Src, found.src);
    SilentIsNoNews(f, g, pass, rn, Dst, found.dst);
    NoNewsSrc(g, rn, found.src, found.dst, pos, pass.ts);
    NoNewsDst(g, rn, None, found.dst, pos, pass.ts);
  }

  lemma SilentIsNoNews(f: Folding, g: Graph, pass: Pass, rn: Uuid, side: Side, r: Option<Resolution>)
    requires g.Active(rn) && SilentAt(f, g, pass, rn, side)
    requires r == Find(f, g.entities, pass, g.Position(pass.source), g.edges[rn].pointers.At(side))
    ensures NoNews(g, rn, side, r, g.Position(pass.source))
  {
  }

  /** A step changes nothing if and only if both sides are silent. */
  lemma StepIsSilentIff(f: Folding, g: Graph, pass: Pass, rn: Uuid)
    requires WellFormed(g) && g.Active(rn)
    ensures Step(f, g, pass, rn) == g <==> SilentAt(f, g, pass, rn, Src) && SilentAt(f, g, pass, rn, Dst)
  {
    if Step(f, g, pass, rn) == g {
      StepHealsOnly(f, g, pass, rn);
      HealsTwice(f, g.entities, TableFor(f, g, pass, rn, Dst), g.entities);
      StepRebinds(f, g, pass, rn);
      UnmovedIsSilent(f, g, pass, rn, Src);
      UnmovedIsSilent(f, g, pass, rn, Dst);
    } else if SilentAt(f, g, pass, rn, Src) && SilentAt(f, g, pass, rn, Dst) {
      SilentStep(f, g, pass, rn);
    }
  }

  lemma UnmovedIsSilent(f: Folding, g: Graph, pass: Pass, rn: Uuid, side: Side)
    requires g.Active(rn) && EdgeRebound(f, g, g, pass, rn, g)
    requires TableFor(f, g, pass, rn, Dst) == g.entities
    requires g.entities == FindWrites(f, g.entities, pass, g.Position(pass.source), g.edges[rn].pointers.dst)
    ensures SilentAt(f, g, pass, rn, side)
  {
    assert SideRebound(f, g, pass, rn, side, TableFor(f, g, pass, rn, side), g);
  }

  // A whole pass.

  /** Equal rows, hops and rels make equal graphs. */
  lemma SameGraph(g: Graph, g': Graph)
    requires g'.entities == g.entities && g'.positions == g.positions && g'.next == g.next && g'.edges == g.edges
    requires WellFormed(g) && WellFormed(g')
    requires forall rn <- g.edges :: g'.Hop(rn, Src) == g.Hop(rn, Src) && g'.Hop(rn, Dst) == g.Hop(rn, Dst)
    ensures g' == g
  {
    forall rn
      ensures rn in g'.src <==> rn in g.src
      ensures rn in g'.dst <==> rn in g.dst
      ensures rn in g.src ==> g'.src[rn] == g.src[rn]
      ensures rn in g.dst ==> g'.dst[rn] == g.dst[rn]
    {
      if rn in g.edges {
        assert g'.Hop(rn, Src) == g.Hop(rn, Src) && g'.Hop(rn, Dst) == g.Hop(rn, Dst);
      }
    }
    assert g'.src == g.src && g'.dst == g.dst;
    forall rn
      ensures g'.Direct(rn) == g.Direct(rn)
    {
      assert DirectSynced(g, rn) && DirectSynced(g', rn);
    }
    SameDirects(g, g');
  }

  lemma SameDirects(g: Graph, g': Graph)
    requires forall rn :: g'.Direct(rn) == g.Direct(rn)
    ensures g'.direct == g.direct
  {
    forall rn
      ensures rn in g'.direct <==> rn in g.direct
      ensures rn in g.direct ==> g'.direct[rn] == g.direct[rn]
    {
      assert g'.Direct(rn) == g.Direct(rn);
    }
  }

  /** If the last step ends where the pass began, it began there too: a row is changed by its own step
    * only, and healing is never undone. */
  lemma NothingBeforeTheLast(f: Folding, g: Graph, pass: Pass, front: seq<Uuid>, last: Uuid)
    requires WellFormed(g) && last in g.edges && last !in front
    requires Step(f, Steps(f, g, pass, front), pass, last) == g
    ensures Steps(f, g, pass, front) == g
  {
    var before := Steps(f, g, pass, front);
    StepsKeep(f, g, pass, front);
    StepKeeps(f, before, pass, last);
    StepsHealOnly(f, g, pass, front);
    StepHealsOnly(f, before, pass, last);
    HealsTwice(f, g.entities, before.entities, g.entities);
    forall rn <- g.edges
      ensures before.edges[rn] == g.edges[rn]
      ensures before.Hop(rn, Src) == g.Hop(rn, Src) && before.Hop(rn, Dst) == g.Hop(rn, Dst)
    {
      if rn == last {
        assert SameRow(g, before, rn);
      }
    }
    SameGraph(g, before);
  }

  ghost predicate AllSilent(f: Folding, g: Graph, pass: Pass, order: seq<Uuid>) {
    forall rn <- order :: SilentAt(f, g, pass, rn, Src) && SilentAt(f, g, pass, rn, Dst)
  }

  /** A pass changes nothing if and only if every side of every candidate is silent. */
  lemma {:induction false} PassIsSilentIff(f: Folding, g: Graph, pass: Pass, order: seq<Uuid>)
    requires WellFormed(g) && AllActive(g, order) && Distinct(order)
    ensures Steps(f, g, pass, order) == g <==> AllSilent(f, g, pass, order)
  {
    if order != [] {
      var front, last := order[..|order| - 1], order[|order| - 1];
      assert order == front + [last];
      assert last !in front && g.Active(last);
      PassIsSilentIff(f, g, pass, front);
      StepIsSilentIff(f, g, pass, last);
      if Steps(f, g, pass, order) == g {
        NothingBeforeTheLast(f, g, pass, front, last);
      }
    }
  }

  // The second of two passes.

  /** If the second pass re-checks this side, it looks up without healing and finds what the first pass
    * recorded. Nothing is asked of the hop or the position: the first pass has seen to them. */
  ghost predicate SettledAt(f: Folding, g: Graph, pass: Pass, rn: Uuid, side: Side) {
    PointerAt(g, rn, side, pass.source) && Checks(pass, g.Position(pass.source), g.edges[rn].pointers.At(side)) ==>
      var p := PointerOf(g, rn, side);
      && QuietLookup(f, g.entities, p)
      && ResolutionOf(f, g, p) == Resolution(p.state, p.resolved)
  }

  /** With no change in between, a second pass is silent if and only if, on the table that the first one
    * left, every pointer it re-checks resolves without healing to what is recorded. */
  lemma SecondPassIsSilentIff(f: Folding, g: Graph, pass: Pass, order: seq<Uuid>, again: seq<Uuid>)
    requires WellFormed(g) && Candidates(g, order) && Candidates(Steps(f, g, pass, order), again)
    ensures var g' := Steps(f, g, pass, order);
            Steps(f, g', pass, again) == g'
            <==> forall rn <- again :: SettledAt(f, g', pass, rn, Src) && SettledAt(f, g', pass, rn, Dst)
  {
    var g' := Steps(f, g, pass, order);
    StepsKeep(f, g, pass, order);
    PassIsSilentIff(f, g', pass, again);
    forall rn <- again
      ensures SilentAt(f, g', pass, rn, Src) <==> SettledAt(f, g', pass, rn, Src)
      ensures SilentAt(f, g', pass, rn, Dst) <==> SettledAt(f, g', pass, rn, Dst)
    {
      RecheckedIsInStep(f, g, pass, order, rn, Src);
      RecheckedIsInStep(f, g, pass, order, rn, Dst);
    }
  }

  /** A side that is checked again was checked before, so its hop and its position are in step. */
  lemma RecheckedIsInStep(f: Folding, g: Graph, pass: Pass, order: seq<Uuid>, rn: Uuid, side: Side)
    requires WellFormed(g) && Candidates(g, order)
    requires var g' := Steps(f, g, pass, order); g'.Active(rn) && !g'.edges[rn].pointers.Empty()
    ensures var g' := Steps(f, g, pass, order);
            SilentAt(f, g', pass, rn, side) <==> SettledAt(f, g', pass, rn, side)
  {
    var g' := Steps(f, g, pass, order);
    StepsKeep(f, g, pass, order);
    CandidateBefore(g, g', order, rn);
    var i: nat :| i < |order| && order[i] == rn;
    OneRebound(f, g, pass, order, i);
    ReboundIsInStep(f, g, Steps(f, g, pass, order[..i]), pass, rn, side, g');
  }

  lemma ReboundIsInStep(f: Folding, g: Graph, turn: Graph, pass: Pass, rn: Uuid, side: Side, g': Graph)
    requires EdgeRebound(f, g, turn, pass, rn, g') && g'.Active(rn) && g'.positions == g.positions
    ensures SilentAt(f, g', pass, rn, side) <==> SettledAt(f, g', pass, rn, side)
  {
    assert SideRebound(f, g, pass, rn, side, TableFor(f, turn, pass, rn, side), g');
  }
}
