/** Re-binding the cross-group pointers into one source group: what one pass does to each edge, and
  * the three representations - cached pointer, hops, compatibility rel - it keeps in step. */
module Rebind {
  import opened Common
  import opened PropertyGraph
  import opened NameLookup
  import opened PointerResolution

  /** A pass: the group being pointed into, whether the staleness gate is bypassed, and the time
    * stamped on edges it invalidates. */
  datatype Pass = Pass(source: GroupId, force: bool, ts: Timestamp)

  /** The staleness gate: a Bound pointer checked at or after the current position is skipped. */
  predicate Gated(pass: Pass, pos: Option<nat>, p: Pointer) {
    && !pass.force
    && p.state.Bound?
    && p.boundAt.Some? && pos.Some?
    && p.boundAt.value >= pos.value
  }

  predicate Points(pass: Pass, p: Option<Pointer>) {
    p.Some? && p.value.source == pass.source
  }

  predicate Checks(pass: Pass, pos: Option<nat>, p: Option<Pointer>) {
    Points(pass, p) && !Gated(pass, pos, p.value)
  }

  /** What phase 1 finds for one side, and what it leaves in the entity table. */
  function Find(f: Folding, ents: Entities, pass: Pass, pos: Option<nat>, p: Option<Pointer>): (r: Option<Resolution>)
    ensures r.Some? <==> Checks(pass, pos, p)
    ensures r.Some? ==> (r.value.state.Bound? <==> r.value.uuid.Some?)
    ensures r.Some? && r.value.uuid.Some? ==> r.value.uuid.value in ents
  {
    if Checks(pass, pos, p) then Some(ResolveEndpoint(f, ents, pass.source, p.value.name, p.value.kind)) else None
  }

  function FindWrites(f: Folding, ents: Entities, pass: Pass, pos: Option<nat>, p: Option<Pointer>): Entities {
    if Checks(pass, pos, p) then LookupWrites(f, ents, pass.source, p.value.name, p.value.kind) else ents
  }

  /** One side's endpoint if the edge survives: the new resolution, or what is there now. */
  function Prospective(r: Option<Resolution>, hop: Option<Uuid>): Option<Uuid> {
    if r.Some? then r.value.uuid else hop
  }

  predicate Changed(r: Option<Resolution>, p: Option<Pointer>) {
    r.Some? && p.Some? && r.value.uuid != p.value.resolved
  }

  function Rebound(p: Pointer, r: Resolution, pos: Option<nat>): Pointer {
    p.(resolved := r.uuid, boundAt := pos, state := r.state)
  }

  /** Phase 3 for one side's hop. */
  function SetHop(g: Graph, rn: Uuid, side: Side, r: Option<Resolution>): Graph {
    if r.None? || g.Hop(rn, side) == r.value.uuid then g
    else
      var g1 := if g.Hop(rn, side).Some? then g.DeleteHop(rn, side) else g;
      if r.value.uuid.Some? then g1.CreateHop(rn, side, r.value.uuid.value) else g1
  }

  predicate HopMoves(g: Graph, rn: Uuid, side: Side, r: Option<Resolution>) {
    r.Some? && g.Hop(rn, side) != r.value.uuid
  }

  function SetPointer(ps: Pointers, side: Side, r: Option<Resolution>, pos: Option<nat>): Pointers {
    if r.Some? && ps.At(side).Some? then ps.Set(side, Rebound(ps.At(side).value, r.value, pos)) else ps
  }

  function SyncDirect(g: Graph, rn: Uuid): Graph {
    var g1 := g.DeleteDirect(rn);
    if g1.Complete(rn) then g1.CreateDirect(rn, g1.src[rn], g1.dst[rn]) else g1
  }

  /** Phase 3: the edge survives with both resolutions applied. */
  function Survive(g: Graph, rn: Uuid, s: Option<Resolution>, d: Option<Resolution>, pos: Option<nat>): Graph
    requires rn in g.edges
  {
    var moves := HopMoves(g, rn, Src, s) || HopMoves(g, rn, Dst, d);
    var g2 := SetHops(g, rn, s, d).SetPointers(rn, NewPointers(g.edges[rn].pointers, s, d, pos));
    if moves then SyncDirect(g2, rn) else g2
  }

  datatype Outcome = Untouched | SelfLooped | Duplicate | Survives

  /** Phase 2: the decision on the fully prospective pair. */
  function Judge(g: Graph, rn: Uuid, s: Option<Resolution>, d: Option<Resolution>): Outcome
    requires rn in g.edges
  {
    var ps := g.edges[rn].pointers;
    var a, b := Prospective(s, g.Hop(rn, Src)), Prospective(d, g.Hop(rn, Dst));
    if s.None? && d.None? then Untouched
    else if !(Changed(s, ps.src) || Changed(d, ps.dst)) || a.None? || b.None? then Survives
    else if a == b then SelfLooped
    else if g.HasDirectedEdge(a.value, b.value, g.edges[rn].name, g.edges[rn].group) then Duplicate
    else Survives
  }

  function Settle(g: Graph, rn: Uuid, s: Option<Resolution>, d: Option<Resolution>, pos: Option<nat>,
                  ts: Timestamp): Graph
    requires rn in g.edges
  {
    match Judge(g, rn, s, d)
    case Untouched => g
    case SelfLooped | Duplicate => g.Invalidate(rn, ts)
    case Survives => Survive(g, rn, s, d, pos)
  }

  /** One candidate: both sides are resolved first, healing the entity table on the way. */
  function Step(f: Folding, g: Graph, pass: Pass, rn: Uuid): Graph {
    if rn !in g.edges then g
    else
      var ps, pos := g.edges[rn].pointers, g.Position(pass.source);
      var ents1 := FindWrites(f, g.entities, pass, pos, ps.src);
      var ents2 := FindWrites(f, ents1, pass, pos, ps.dst);
      Settle(g.(entities := ents2), rn, Find(f, g.entities, pass, pos, ps.src), Find(f, ents1, pass, pos, ps.dst),
             pos, pass.ts)
  }

  function Steps(f: Folding, g: Graph, pass: Pass, order: seq<Uuid>): Graph {
    if order == [] then g
    else Step(f, Steps(f, g, pass, order[..|order| - 1]), pass, order[|order| - 1])
  }

  /** The active edges that carry a pointer, each once, in whatever order the engine lists them. */
  ghost predicate Candidates(g: Graph, order: seq<Uuid>) {
    && (forall rn :: rn in order <==> g.Active(rn) && !g.edges[rn].pointers.Empty())
    && (forall i, j :: 0 <= i < j < |order| ==> order[i] != order[j])
  }

  // One step, as its callers see it.

  /** The resolutions the step uses, and the graph with the healed table that it judges. */
  datatype Found = Found(g: Graph, src: Option<Resolution>, dst: Option<Resolution>)

  function Phase1(f: Folding, g: Graph, pass: Pass, rn: Uuid): (r: Found)
    requires rn in g.edges
    ensures SameIdentities(g.entities, r.g.entities) && r.g == g.(entities := r.g.entities)
    ensures r.src.Some? <==> Checks(pass, g.Position(pass.source), g.edges[rn].pointers.src)
    ensures r.dst.Some? <==> Checks(pass, g.Position(pass.source), g.edges[rn].pointers.dst)
    ensures r.src.Some? ==> Legal(r.g.entities, r.src.value)
    ensures r.dst.Some? ==> Legal(r.g.entities, r.dst.value)
    ensures Step(f, g, pass, rn) == Settle(r.g, rn, r.src, r.dst, g.Position(pass.source), pass.ts)
  {
    var ps, pos := g.edges[rn].pointers, g.Position(pass.source);
    var ents1 := FindWrites(f, g.entities, pass, pos, ps.src);
    FindWritesKeep(f, g.entities, pass, pos, ps.src);
    FindWritesKeep(f, ents1, pass, pos, ps.dst);
    Found(g.(entities := FindWrites(f, ents1, pass, pos, ps.dst)),
          Find(f, g.entities, pass, pos, ps.src), Find(f, ents1, pass, pos, ps.dst))
  }

  /** Bound exactly when it names an entity, which exists. */
  predicate Legal(ents: Entities, r: Resolution) {
    (r.state.Bound? <==> r.uuid.Some?) && (r.uuid.Some? ==> r.uuid.value in ents)
  }

  lemma FindWritesKeep(f: Folding, ents: Entities, pass: Pass, pos: Option<nat>, p: Option<Pointer>)
    ensures SameIdentities(ents, FindWrites(f, ents, pass, pos, p))
  {
    if Checks(pass, pos, p) {
      LookupWritesKeepIdentities(f, ents, pass.source, p.value.name, p.value.kind);
    }
  }

  // What a surviving edge looks like.

  ghost predicate LegalFind(g: Graph, r: Option<Resolution>) {
    r.Some? ==> Legal(g.entities, r.value)
  }

  /** Every other row keeps its hops and its rel. */
  ghost predicate OtherHopsKept(g: Graph, g': Graph, rn: Uuid) {
    && (forall q, side :: q != rn ==> g'.Hop(q, side) == g.Hop(q, side))
    && (forall q :: q != rn ==> g'.Direct(q) == g.Direct(q))
  }

  lemma SetHopSets(g: Graph, rn: Uuid, side: Side, r: Option<Resolution>)
    requires rn in g.edges && LegalFind(g, r)
    ensures var g' := SetHop(g, rn, side, r);
            && g'.Hop(rn, side) == Prospective(r, g.Hop(rn, side))
            && (forall s: Side :: s != side ==> g'.Hop(rn, s) == g.Hop(rn, s))
            && OtherHopsKept(g, g', rn)
            && g' == g.(src := g'.src, dst := g'.dst)
  {
  }

  lemma SyncDirectSyncs(g: Graph, rn: Uuid)
    requires g.Complete(rn) ==> g.src[rn] in g.entities && g.dst[rn] in g.entities
    ensures var g' := SyncDirect(g, rn);
            DirectSynced(g', rn) && OtherHopsKept(g, g', rn) && g' == g.(direct := g'.direct)
  {
  }

  function NewPointers(ps: Pointers, s: Option<Resolution>, d: Option<Resolution>, pos: Option<nat>): Pointers {
    SetPointer(SetPointer(ps, Src, s, pos), Dst, d, pos)
  }

  /** A survivor ends with exactly the prospective hops, the rewritten pointers, and a compatibility
    * rel that matches its hops; no other edge moves. */
  ghost predicate Settled(g: Graph, rn: Uuid, s: Option<Resolution>, d: Option<Resolution>, pos: Option<nat>, g': Graph)
    requires rn in g.edges
  {
    && g'.Hop(rn, Src) == Prospective(s, g.Hop(rn, Src))
    && g'.Hop(rn, Dst) == Prospective(d, g.Hop(rn, Dst))
    && g'.edges == g.edges[rn := g.edges[rn].(pointers := NewPointers(g.edges[rn].pointers, s, d, pos))]
    && OtherHopsKept(g, g', rn)
    && DirectSynced(g', rn)
    && g'.entities == g.entities && g'.positions == g.positions && g'.next == g.next
  }

  function SetHops(g: Graph, rn: Uuid, s: Option<Resolution>, d: Option<Resolution>): Graph {
    SetHop(SetHop(g, rn, Src, s), rn, Dst, d)
  }

  lemma HopsSet(g: Graph, rn: Uuid, s: Option<Resolution>, d: Option<Resolution>)
    requires rn in g.edges && LegalFind(g, s) && LegalFind(g, d)
    ensures var g' := SetHops(g, rn, s, d);
            && g'.Hop(rn, Src) == Prospective(s, g.Hop(rn, Src))
            && g'.Hop(rn, Dst) == Prospective(d, g.Hop(rn, Dst))
            && OtherHopsKept(g, g', rn)
            && g' == g.(src := g'.src, dst := g'.dst)
  {
    SetHopSets(g, rn, Src, s);
    SetHopSets(SetHop(g, rn, Src, s), rn, Dst, d);
  }

  lemma SurvivorSettled(g: Graph, rn: Uuid, s: Option<Resolution>, d: Option<Resolution>, pos: Option<nat>)
    requires rn in g.edges && WellFormed(g) && LegalFind(g, s) && LegalFind(g, d)
    ensures Settled(g, rn, s, d, pos, Survive(g, rn, s, d, pos))
  {
    var g1 := SetHops(g, rn, s, d);
    HopsSet(g, rn, s, d);
    HopsEndLive(g, rn, s, d, g1);
    var moves := HopMoves(g, rn, Src, s) || HopMoves(g, rn, Dst, d);
    assert !moves ==> g1 == g;
    FinishSurvivor(g, rn, s, d, pos, g1, moves);
  }

  /** The second half of phase 3: pointers, then the compatibility rel if a hop moved. */
  lemma FinishSurvivor(g: Graph, rn: Uuid, s: Option<Resolution>, d: Option<Resolution>, pos: Option<nat>,
                       g1: Graph, moves: bool)
    requires rn in g.edges && WellFormed(g)
    requires g1.Hop(rn, Src) == Prospective(s, g.Hop(rn, Src)) && g1.Hop(rn, Dst) == Prospective(d, g.Hop(rn, Dst))
    requires g1 == g.(src := g1.src, dst := g1.dst) && OtherHopsKept(g, g1, rn)
    requires g1.Complete(rn) ==> g1.src[rn] in g.entities && g1.dst[rn] in g.entities
    requires !moves ==> g1 == g
    ensures var g2 := g1.SetPointers(rn, NewPointers(g.edges[rn].pointers, s, d, pos));
            Settled(g, rn, s, d, pos, if moves then SyncDirect(g2, rn) else g2)
  {
    if moves {
      SyncDirectSyncs(g1.SetPointers(rn, NewPointers(g.edges[rn].pointers, s, d, pos)), rn);
    } else {
      assert DirectSynced(g, rn);
    }
  }

  lemma HopsEndLive(g: Graph, rn: Uuid, s: Option<Resolution>, d: Option<Resolution>, g1: Graph)
    requires WellFormed(g) && LegalFind(g, s) && LegalFind(g, d)
    requires g1.Hop(rn, Src) == Prospective(s, g.Hop(rn, Src)) && g1.Hop(rn, Dst) == Prospective(d, g.Hop(rn, Dst))
    ensures g1.Complete(rn) ==> g1.src[rn] in g.entities && g1.dst[rn] in g.entities
  {
  }

  /** Nothing but row `rn`, its hops and its rel changes in a step; identities never do. */
  ghost predicate StepFrame(g: Graph, g': Graph, rn: Uuid) {
    && g'.edges.Keys == g.edges.Keys
    && (forall q <- g.edges :: q != rn ==> g'.edges[q] == g.edges[q])
    && OtherHopsKept(g, g', rn)
    && SameIdentities(g.entities, g'.entities)
    && g'.positions == g.positions && g'.next == g.next
    && (rn in g.edges ==> && g'.edges[rn].name == g.edges[rn].name && g'.edges[rn].group == g.edges[rn].group
                          && g'.edges[rn].body == g.edges[rn].body)
  }

  lemma StepKeeps(f: Folding, g: Graph, pass: Pass, rn: Uuid)
    requires WellFormed(g)
    ensures WellFormed(Step(f, g, pass, rn)) && StepFrame(g, Step(f, g, pass, rn), rn)
  {
    if rn in g.edges {
      var found := Phase1(f, g, pass, rn);
      HealedWellFormed(g, found.g);
      SettleKeeps(found.g, rn, found.src, found.dst, g.Position(pass.source), pass.ts);
    }
  }

  lemma SettleKeeps(g: Graph, rn: Uuid, s: Option<Resolution>, d: Option<Resolution>, pos: Option<nat>, ts: Timestamp)
    requires rn in g.edges && WellFormed(g) && LegalFind(g, s) && LegalFind(g, d)
    ensures var g' := Settle(g, rn, s, d, pos, ts); WellFormed(g') && StepFrame(g, g', rn)
  {
    match Judge(g, rn, s, d)
    case Untouched =>
    case SelfLooped | Duplicate => InvalidatedKeeps(g, rn, ts);
    case Survives =>
      SurvivorSettled(g, rn, s, d, pos);
      SettledKeeps(g, rn, s, d, pos, Survive(g, rn, s, d, pos));
  }

  lemma InvalidatedKeeps(g: Graph, rn: Uuid, ts: Timestamp)
    requires rn in g.edges && WellFormed(g)
    ensures var g' := g.Invalidate(rn, ts); WellFormed(g') && StepFrame(g, g', rn)
  {
    forall q
      ensures DirectSynced(g.Invalidate(rn, ts), q)
    {
      assert DirectSynced(g, q);
    }
  }

  lemma SettledKeeps(g: Graph, rn: Uuid, s: Option<Resolution>, d: Option<Resolution>, pos: Option<nat>, g': Graph)
    requires rn in g.edges && WellFormed(g) && LegalFind(g, s) && LegalFind(g, d)
    requires Settled(g, rn, s, d, pos, g')
    ensures WellFormed(g') && StepFrame(g, g', rn)
  {
    forall q
      ensures DirectSynced(g', q)
    {
      if q != rn {
        assert DirectSynced(g, q);
        assert g'.Hop(q, Src) == g.Hop(q, Src) && g'.Hop(q, Dst) == g.Hop(q, Dst);
      }
    }
    forall q <- g'.src
      ensures q in g'.edges && g'.src[q] in g'.entities
    {
      assert g'.Hop(q, Src) == Some(g'.src[q]);
      assert q != rn ==> g.Hop(q, Src) == Some(g'.src[q]);
    }
    forall q <- g'.dst
      ensures q in g'.edges && g'.dst[q] in g'.entities
    {
      assert g'.Hop(q, Dst) == Some(g'.dst[q]);
      assert q != rn ==> g.Hop(q, Dst) == Some(g'.dst[q]);
    }
  }
}
