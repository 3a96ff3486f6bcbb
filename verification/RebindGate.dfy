/** The staleness gate: skipping a Bound pointer that was checked at the current position never
  * changes where a pass ends, in every run in which positions move with the data they cover. */
module RebindGate {
  import opened Common
  import opened PropertyGraph
  import opened NameLookup
  import opened PointerResolution
  import opened Rebind
  import opened RebindInvariants

  ghost predicate PointerAt(g: Graph, rn: Uuid, side: Side, source: GroupId) {
    && g.Active(rn)
    && g.edges[rn].pointers.At(side).Some?
    && g.edges[rn].pointers.At(side).value.source == source
  }

  function PointerOf(g: Graph, rn: Uuid, side: Side): Pointer
    requires rn in g.edges && g.edges[rn].pointers.At(side).Some?
  {
    g.edges[rn].pointers.At(side).value
  }

  /** Looking the pointer up would heal no row. */
  ghost predicate QuietLookup(f: Folding, ents: Entities, p: Pointer) {
    LookupWrites(f, ents, p.source, p.name, p.kind) == ents
  }

  ghost predicate CleanAt(f: Folding, g: Graph, source: GroupId, rn: Uuid, side: Side) {
    PointerAt(g, rn, side, source) ==> QuietLookup(f, g.entities, PointerOf(g, rn, side))
  }

  /** No lookup for a pointer into the group would heal a row. */
  ghost predicate Clean(f: Folding, g: Graph, source: GroupId) {
    forall rn, side :: CleanAt(f, g, source, rn, side)
  }

  /** So it is whenever the group's own index is in order, whatever the other groups' keys are. */
  lemma KeyedIsClean(f: Folding, g: Graph, source: GroupId)
    requires KeyedIn(f, g.entities, source)
    ensures Clean(f, g, source)
  {
    forall rn, side
      ensures CleanAt(f, g, source, rn, side)
    {
      if PointerAt(g, rn, side, source) {
        var p := PointerOf(g, rn, side);
        KeyedLookupWritesNothing(f, g.entities, source, p.name, p.kind);
      }
    }
  }

  function ResolutionOf(f: Folding, g: Graph, p: Pointer): Resolution {
    ResolveEndpoint(f, g.entities, p.source, p.name, p.kind)
  }

  /** What is cached is what resolution says now, and the hop agrees. */
  ghost predicate Current(f: Folding, g: Graph, rn: Uuid, side: Side)
    requires rn in g.edges && g.edges[rn].pointers.At(side).Some?
  {
    var p := PointerOf(g, rn, side);
    && ResolutionOf(f, g, p) == Resolution(p.state, p.resolved)
    && g.Hop(rn, side) == p.resolved
  }

  /** No pointer was checked later than the group's position, and a Bound one checked at it is
    * current. */
  ghost predicate FreshAt(f: Folding, g: Graph, source: GroupId, rn: Uuid, side: Side) {
    PointerAt(g, rn, side, source) && PointerOf(g, rn, side).boundAt.Some? ==>
      var p, pos := PointerOf(g, rn, side), g.Position(source);
      && pos.Some? && p.boundAt.value <= pos.value
      && (p.state.Bound? && p.boundAt == pos ==> Current(f, g, rn, side))
  }

  ghost predicate Fresh(f: Folding, g: Graph, source: GroupId) {
    forall rn, side :: FreshAt(f, g, source, rn, side)
  }

  /** Re-resolving this side would write what is already there. */
  ghost predicate DoneAt(f: Folding, g: Graph, pass: Pass, rn: Uuid, side: Side) {
    PointerAt(g, rn, side, pass.source) && Checks(pass, g.Position(pass.source), g.edges[rn].pointers.At(side)) ==>
      Current(f, g, rn, side) && PointerOf(g, rn, side).boundAt == g.Position(pass.source)
  }

  ghost predicate CleanRow(f: Folding, g: Graph, source: GroupId, rn: Uuid) {
    CleanAt(f, g, source, rn, Src) && CleanAt(f, g, source, rn, Dst)
  }

  /** When the lookups of the row heal nothing, both sides are resolved against the same table. */
  lemma CleanPhase1(f: Folding, g: Graph, pass: Pass, rn: Uuid)
    requires CleanRow(f, g, pass.source, rn) && g.Active(rn)
    ensures var found, pos, ps := Phase1(f, g, pass, rn), g.Position(pass.source), g.edges[rn].pointers;
            && found.g == g
            && found.src == (if Checks(pass, pos, ps.src) then Some(ResolutionOf(f, g, ps.src.value)) else None)
            && found.dst == (if Checks(pass, pos, ps.dst) then Some(ResolutionOf(f, g, ps.dst.value)) else None)
  {
    var ps, pos := g.edges[rn].pointers, g.Position(pass.source);
    assert ps.At(Src) == ps.src && ps.At(Dst) == ps.dst;
    assert Checks(pass, pos, ps.src) ==> PointerAt(g, rn, Src, pass.source);
    assert Checks(pass, pos, ps.dst) ==> PointerAt(g, rn, Dst, pass.source);
  }

  /** Writing back a resolution that is already cached and already hopped changes nothing. */
  ghost predicate NoNews(g: Graph, rn: Uuid, side: Side, r: Option<Resolution>, pos: Option<nat>)
    requires rn in g.edges
  {
    r.Some? ==>
      && g.edges[rn].pointers.At(side).Some?
      && Rebound(PointerOf(g, rn, side), r.value, pos) == PointerOf(g, rn, side)
      && g.Hop(rn, side) == r.value.uuid
  }

  /** Dropping a side without news changes nothing about how the edge is settled. */
  lemma NoNewsSrc(g: Graph, rn: Uuid, s: Option<Resolution>, d: Option<Resolution>, pos: Option<nat>, ts: Timestamp)
    requires rn in g.edges && NoNews(g, rn, Src, s, pos)
    ensures Settle(g, rn, s, d, pos, ts) == Settle(g, rn, None, d, pos, ts)
  {
    if s.Some? {
      NoNewsSrcSurvives(g, rn, s, d, pos);
      NoNewsSrcJudged(g, rn, s, d, pos);
    }
  }

  lemma NoNewsSrcJudged(g: Graph, rn: Uuid, s: Option<Resolution>, d: Option<Resolution>, pos: Option<nat>)
    requires rn in g.edges && s.Some? && NoNews(g, rn, Src, s, pos)
    ensures Judge(g, rn, s, d) == if d.None? then Survives else Judge(g, rn, None, d)
  {
    var p := PointerOf(g, rn, Src);
    assert Rebound(p, s.value, pos).resolved == s.value.uuid;
    assert g.edges[rn].pointers.src == Some(p);
    assert !Changed(s, g.edges[rn].pointers.src);
    assert Prospective(s, g.Hop(rn, Src)) == Prospective(None, g.Hop(rn, Src));
  }

  lemma NoNewsSrcSurvives(g: Graph, rn: Uuid, s: Option<Resolution>, d: Option<Resolution>, pos: Option<nat>)
    requires rn in g.edges && s.Some? && NoNews(g, rn, Src, s, pos)
    ensures Survive(g, rn, s, d, pos) == if d.None? then g else Survive(g, rn, None, d, pos)
  {
    var row := g.edges[rn];
    assert SetPointer(row.pointers, Src, s, pos) == row.pointers;
    assert SetHops(g, rn, s, d) == SetHops(g, rn, None, d);
    if d.None? {
      assert Survive(g, rn, s, d, pos) == g;
    }
  }

  lemma NoNewsDst(g: Graph, rn: Uuid, s: Option<Resolution>, d: Option<Resolution>, pos: Option<nat>, ts: Timestamp)
    requires rn in g.edges && NoNews(g, rn, Dst, d, pos)
    ensures Settle(g, rn, s, d, pos, ts) == Settle(g, rn, s, None, pos, ts)
  {
    if d.Some? {
      SetHopElsewhere(g, rn, s);
      var ps := SetPointer(g.edges[rn].pointers, Src, s, pos);
      assert ps.dst == g.edges[rn].pointers.dst;
      assert SetPointer(ps, Dst, d, pos) == ps;
      if s.None? {
        assert Survive(g, rn, s, d, pos) == g;
      }
    }
  }

  lemma SetHopElsewhere(g: Graph, rn: Uuid, s: Option<Resolution>)
    ensures SetHop(g, rn, Src, s).Hop(rn, Dst) == g.Hop(rn, Dst)
  {
  }

  /** A candidate whose checked sides are all done is left exactly as it is. */
  lemma StepOnDone(f: Folding, g: Graph, pass: Pass, rn: Uuid)
    requires CleanRow(f, g, pass.source, rn) && g.Active(rn)
    requires DoneAt(f, g, pass, rn, Src) && DoneAt(f, g, pass, rn, Dst)
    ensures Step(f, g, pass, rn) == g
  {
    var found, pos := Phase1(f, g, pass, rn), g.Position(pass.source);
    CleanPhase1(f, g, pass, rn);
    NoNewsSrc(g, rn, found.src, found.dst, pos, pass.ts);
    NoNewsDst(g, rn, None, found.dst, pos, pass.ts);
  }

  function Forced(pass: Pass): Pass {
    pass.(force := true)
  }

  /** In a fresh graph a gated candidate and a forced one end alike: a side that the gate skips
    * would be re-resolved to what it already says. */
  lemma GateSkipsNothingNew(f: Folding, g: Graph, pass: Pass, rn: Uuid)
    requires CleanRow(f, g, pass.source, rn) && Fresh(f, g, pass.source) && g.Active(rn)
    ensures Step(f, g, pass, rn) == Step(f, g, Forced(pass), rn)
  {
    var a, b, pos := Phase1(f, g, pass, rn), Phase1(f, g, Forced(pass), rn), g.Position(pass.source);
    CleanPhase1(f, g, pass, rn);
    CleanPhase1(f, g, Forced(pass), rn);
    assert FreshAt(f, g, pass.source, rn, Src) && FreshAt(f, g, pass.source, rn, Dst);
    if a.src != b.src {
      NoNewsSrc(g, rn, b.src, b.dst, pos, pass.ts);
    }
    if a.dst != b.dst {
      NoNewsDst(g, rn, a.src, b.dst, pos, pass.ts);
    }
  }

  // Whole passes.

  /** What a step does when its lookups heal nothing: checked sides of a survivor become current at the present
    * position, everything else about pointers and hops stays, and no entity is written. */
  ghost predicate SideOutcome(f: Folding, g: Graph, pass: Pass, rn: Uuid, side: Side, g': Graph)
    requires rn in g.edges && rn in g'.edges
  {
    if Checks(pass, g.Position(pass.source), g.edges[rn].pointers.At(side)) then
      && g'.edges[rn].pointers.At(side).Some?
      && PointerOf(g', rn, side) == Rebound(PointerOf(g, rn, side), ResolutionOf(f, g, PointerOf(g, rn, side)),
                                            g.Position(pass.source))
      && g'.Hop(rn, side) == PointerOf(g', rn, side).resolved
    else
      g'.edges[rn].pointers.At(side) == g.edges[rn].pointers.At(side) && g'.Hop(rn, side) == g.Hop(rn, side)
  }

  lemma CleanStep(f: Folding, g: Graph, pass: Pass, rn: Uuid)
    requires WellFormed(g) && CleanRow(f, g, pass.source, rn) && g.Active(rn)
    ensures var g' := Step(f, g, pass, rn);
            && StepFrame(g, g', rn) && g'.entities == g.entities
            && (g'.Active(rn) ==> SideOutcome(f, g, pass, rn, Src, g') && SideOutcome(f, g, pass, rn, Dst, g'))
  {
    var found := Phase1(f, g, pass, rn);
    CleanPhase1(f, g, pass, rn);
    StepKeeps(f, g, pass, rn);
    CleanSettle(f, g, pass, rn, found.src, found.dst);
  }

  lemma CleanSettle(f: Folding, g: Graph, pass: Pass, rn: Uuid, s: Option<Resolution>, d: Option<Resolution>)
    requires WellFormed(g) && rn in g.edges && LegalFind(g, s) && LegalFind(g, d)
    requires var pos, ps := g.Position(pass.source), g.edges[rn].pointers;
             && s == (if Checks(pass, pos, ps.src) then Some(ResolutionOf(f, g, ps.src.value)) else None)
             && d == (if Checks(pass, pos, ps.dst) then Some(ResolutionOf(f, g, ps.dst.value)) else None)
    ensures var g' := Settle(g, rn, s, d, g.Position(pass.source), pass.ts);
            && g'.entities == g.entities && rn in g'.edges
            && (g'.Active(rn) ==> SideOutcome(f, g, pass, rn, Src, g') && SideOutcome(f, g, pass, rn, Dst, g'))
  {
    var pos := g.Position(pass.source);
    var g' := Settle(g, rn, s, d, pos, pass.ts);
    match Judge(g, rn, s, d)
    case Untouched =>
    case SelfLooped | Duplicate =>
    case Survives =>
      SurvivorSettled(g, rn, s, d, pos);
      SettledOutcome(f, g, pass, rn, Src, s, d, g');
      SettledOutcome(f, g, pass, rn, Dst, s, d, g');
  }

  lemma SettledOutcome(f: Folding, g: Graph, pass: Pass, rn: Uuid, side: Side,
                       s: Option<Resolution>, d: Option<Resolution>, g': Graph)
    requires rn in g.edges && rn in g'.edges
    requires var pos, ps := g.Position(pass.source), g.edges[rn].pointers;
             && s == (if Checks(pass, pos, ps.src) then Some(ResolutionOf(f, g, ps.src.value)) else None)
             && d == (if Checks(pass, pos, ps.dst) then Some(ResolutionOf(f, g, ps.dst.value)) else None)
             && g'.edges[rn].pointers == NewPointers(ps, s, d, pos)
    requires g'.Hop(rn, Src) == Prospective(s, g.Hop(rn, Src)) && g'.Hop(rn, Dst) == Prospective(d, g.Hop(rn, Dst))
    ensures SideOutcome(f, g, pass, rn, side, g')
  {
  }

  ghost predicate SidesSame(g: Graph, g': Graph, rn: Uuid) {
    && rn in g.edges && rn in g'.edges
    && g'.edges[rn].invalidAt == g.edges[rn].invalidAt
    && forall side: Side :: g'.edges[rn].pointers.At(side) == g.edges[rn].pointers.At(side)
                            && g'.Hop(rn, side) == g.Hop(rn, side)
  }

  lemma SideFactsCarry(f: Folding, g: Graph, g': Graph, pass: Pass, rn: Uuid, side: Side)
    requires SidesSame(g, g', rn) && g'.entities == g.entities && g'.positions == g.positions
    ensures FreshAt(f, g, pass.source, rn, side) ==> FreshAt(f, g', pass.source, rn, side)
    ensures DoneAt(f, g, pass, rn, side) ==> DoneAt(f, g', pass, rn, side)
  {
  }

  lemma OtherSidesSame(g: Graph, g': Graph, rn: Uuid, q: Uuid)
    requires StepFrame(g, g', rn) && q != rn && q in g.edges
    ensures SidesSame(g, g', q)
  {
    forall side: Side
      ensures g'.edges[q].pointers.At(side) == g.edges[q].pointers.At(side) && g'.Hop(q, side) == g.Hop(q, side)
    {
    }
  }

  lemma StepSideFacts(f: Folding, g: Graph, pass: Pass, rn: Uuid, side: Side)
    requires WellFormed(g) && CleanRow(f, g, pass.source, rn) && g.Active(rn) && FreshAt(f, g, pass.source, rn, side)
    ensures var g' := Step(f, g, pass, rn);
            FreshAt(f, g', pass.source, rn, side) && DoneAt(f, g', pass, rn, side)
  {
    CleanStep(f, g, pass, rn);
    var g' := Step(f, g, pass, rn);
    if g'.Active(rn) {
      assert SideOutcome(f, g, pass, rn, side, g');
    }
  }

  lemma StepSideDone(f: Folding, g: Graph, pass: Pass, rn: Uuid, side: Side)
    requires WellFormed(g) && CleanRow(f, g, pass.source, rn) && g.Active(rn)
    ensures DoneAt(f, Step(f, g, pass, rn), pass, rn, side)
  {
    CleanStep(f, g, pass, rn);
    var g' := Step(f, g, pass, rn);
    if g'.Active(rn) {
      assert SideOutcome(f, g, pass, rn, side, g');
    }
  }

  lemma StepKeepsClean(f: Folding, g: Graph, pass: Pass, rn: Uuid)
    requires WellFormed(g) && Clean(f, g, pass.source) && g.Active(rn)
    ensures WellFormed(Step(f, g, pass, rn)) && Clean(f, Step(f, g, pass, rn), pass.source)
  {
    CleanStep(f, g, pass, rn);
    StepKeeps(f, g, pass, rn);
    var g' := Step(f, g, pass, rn);
    forall q, side
      ensures CleanAt(f, g', pass.source, q, side)
    {
      assert CleanAt(f, g, pass.source, q, side);
      if q != rn && q in g.edges {
        OtherSidesSame(g, g', rn, q);
      } else if q == rn && PointerAt(g', rn, side, pass.source) {
        assert SideOutcome(f, g, pass, rn, side, g');
        assert PointerAt(g, rn, side, pass.source);
      }
    }
  }

  lemma StepKeepsFresh(f: Folding, g: Graph, pass: Pass, rn: Uuid)
    requires WellFormed(g) && Clean(f, g, pass.source) && Fresh(f, g, pass.source) && g.Active(rn)
    ensures Fresh(f, Step(f, g, pass, rn), pass.source)
  {
    var g' := Step(f, g, pass, rn);
    CleanStep(f, g, pass, rn);
    forall q, side
      ensures FreshAt(f, g', pass.source, q, side)
    {
      assert FreshAt(f, g, pass.source, q, side);
      if q == rn {
        StepSideFacts(f, g, pass, rn, side);
      } else if q in g.edges {
        OtherSidesSame(g, g', rn, q);
        SideFactsCarry(f, g, g', pass, q, side);
      }
    }
  }

  /** The candidates still to come are active throughout: a step invalidates only its own row. */
  ghost predicate AllActive(g: Graph, order: seq<Uuid>) {
    forall rn <- order :: g.Active(rn)
  }

  lemma {:induction false} StepsKeepClean(f: Folding, g: Graph, pass: Pass, order: seq<Uuid>, rest: seq<Uuid>)
    requires WellFormed(g) && Clean(f, g, pass.source) && AllActive(g, order + rest) && Distinct(order + rest)
    ensures var g' := Steps(f, g, pass, order);
            && WellFormed(g') && Clean(f, g', pass.source) && AllActive(g', rest)
            && g'.entities == g.entities && g'.positions == g.positions
    ensures Fresh(f, g, pass.source) ==> Fresh(f, Steps(f, g, pass, order), pass.source)
  {
    if order == [] {
      assert order + rest == rest;
    } else {
      var front, last := order[..|order| - 1], order[|order| - 1];
      assert order + rest == front + ([last] + rest);
      StepsKeepClean(f, g, pass, front, [last] + rest);
      var before, after := Steps(f, g, pass, front), Steps(f, g, pass, order);
      assert ([last] + rest)[0] == last;
      assert before.Active(last);
      StepKeepsClean(f, before, pass, last);
      CleanStep(f, before, pass, last);
      if Fresh(f, g, pass.source) {
        StepKeepsFresh(f, before, pass, last);
      }
      forall rn <- rest
        ensures after.Active(rn)
      {
        var i :| 0 <= i < |rest| && rest[i] == rn;
        assert (order + rest)[|order| - 1] == last && (order + rest)[|order| + i] == rn;
        assert rn in [last] + rest;
      }
    }
  }

  /** In a fresh graph whose lookups heal nothing a gated pass and a forced pass end in the same graph. */
  lemma {:induction false} GatedEqualsForced(f: Folding, g: Graph, pass: Pass, order: seq<Uuid>)
    requires WellFormed(g) && Clean(f, g, pass.source) && Fresh(f, g, pass.source)
    requires AllActive(g, order) && Distinct(order)
    ensures Steps(f, g, pass, order) == Steps(f, g, Forced(pass), order)
  {
    if order != [] {
      var front, last := order[..|order| - 1], order[|order| - 1];
      assert order == front + [last];
      GatedEqualsForced(f, g, pass, front);
      StepsKeepClean(f, g, pass, front, [last]);
      GateSkipsNothingNew(f, Steps(f, g, pass, front), pass, last);
    }
  }

  lemma {:induction false} StepsDone(f: Folding, g: Graph, pass: Pass, order: seq<Uuid>, rest: seq<Uuid>,
                                    rn: Uuid, side: Side)
    requires WellFormed(g) && Clean(f, g, pass.source) && AllActive(g, order + rest) && Distinct(order + rest)
    requires rn in order
    ensures DoneAt(f, Steps(f, g, pass, order), pass, rn, side)
  {
    var front, last := order[..|order| - 1], order[|order| - 1];
    assert order == front + [last];
    assert order + rest == front + ([last] + rest);
    StepsKeepClean(f, g, pass, front, [last] + rest);
    var before := Steps(f, g, pass, front);
    assert ([last] + rest)[0] == last;
    assert before.Active(last);
    if last == rn {
      StepSideDone(f, before, pass, rn, side);
    } else {
      StepsDone(f, g, pass, front, [last] + rest, rn, side);
      CleanStep(f, before, pass, last);
      StepsKeep(f, g, pass, front);
      assert g.Active(rn);
      OtherSidesSame(before, Steps(f, g, pass, order), last, rn);
      SideFactsCarry(f, before, Steps(f, g, pass, order), pass, rn, side);
    }
  }

  /** When the first pass's lookups heal nothing, a second pass with no change in between leaves the
    * graph exactly as it is. Module `RebindSilence` has the exact condition. */
  lemma SecondPassChangesNothing(f: Folding, g: Graph, pass: Pass, order: seq<Uuid>, again: seq<Uuid>)
    requires WellFormed(g) && Clean(f, g, pass.source) && Candidates(g, order)
    requires Candidates(Steps(f, g, pass, order), again)
    ensures Steps(f, Steps(f, g, pass, order), pass, again) == Steps(f, g, pass, order)
  {
    var g' := Steps(f, g, pass, order);
    assert order + [] == order;
    StepsKeepClean(f, g, pass, order, []);
    StepsKeep(f, g, pass, order);
    forall rn, side | rn in again
      ensures DoneAt(f, g', pass, rn, side) && g'.Active(rn)
    {
      assert g'.Active(rn) && rn in g.edges;
      assert rn !in order ==> SameRow(g, g', rn);
      StepsDone(f, g, pass, order, [], rn, side);
    }
    StepsOnDone(f, g', pass, again);
  }

  lemma {:induction false} StepsOnDone(f: Folding, g: Graph, pass: Pass, order: seq<Uuid>)
    requires Clean(f, g, pass.source) && AllActive(g, order)
    requires forall rn, side :: rn in order ==> DoneAt(f, g, pass, rn, side)
    ensures Steps(f, g, pass, order) == g
  {
    if order != [] {
      var front, last := order[..|order| - 1], order[|order| - 1];
      assert order == front + [last];
      StepsOnDone(f, g, pass, front);
      assert DoneAt(f, g, pass, last, Src) && DoneAt(f, g, pass, last, Dst);
      assert CleanAt(f, g, pass.source, last, Src) && CleanAt(f, g, pass.source, last, Dst);
      StepOnDone(f, g, pass, last);
    }
  }
}
