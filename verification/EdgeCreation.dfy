/** What creating a cross-group edge does, said of the request and of the graph before and after: when it is
  * refused and why, and what the new row, its two sides and its compatibility rel are. Nothing here goes
  * through the functions that compute it. */
module EdgeCreation {
  import opened Common
  import opened PropertyGraph
  import opened NameLookup
  import opened PointerResolution
  import opened CrossGroupEdges

  /** Why an endpoint is refused. */
  ghost predicate RefusedFor(f: Folding, ents: Entities, group: GroupId, e: EndpointSpec, why: EdgeError) {
    match why
    case NoSuchEndpoint => e.Local? && e.uuid !in ents
    case ForeignEndpoint => e.Local? && e.uuid in ents && ents[e.uuid].group != group
    case BlankEndpoint => e.Foreign? && Blank(f, e)
    case InvalidKind =>
      && e.Foreign? && !Blank(f, e) && e.kind.Some?
      && var k := f.trim(e.kind.value);
         k == "" || '\U{1F}' in k || k == "Merged"
  }

  ghost predicate Blank(f: Folding, e: EndpointSpec)
    requires e.Foreign?
  {
    f.trim(e.source) == "" || f.trim(e.name) == ""
  }

  ghost predicate Acceptable(f: Folding, ents: Entities, group: GroupId, e: EndpointSpec) {
    forall why :: !RefusedFor(f, ents, group, e, why)
  }

  lemma RefusalIs(f: Folding, ents: Entities, group: GroupId, e: EndpointSpec)
    ensures forall why :: Refuses(f, ents, e, group) == Some(why) <==> RefusedFor(f, ents, group, e, why)
    ensures Refuses(f, ents, e, group).None? <==> Acceptable(f, ents, group, e)
  {
    forall why
      ensures Refuses(f, ents, e, group) == Some(why) <==> RefusedFor(f, ents, group, e, why)
    {
    }
    var r := Refuses(f, ents, e, group);
    if r.Some? {
      assert RefusedFor(f, ents, group, e, r.value);
    }
  }

  lemma IdentitiesDecide(f: Folding, ents: Entities, ents': Entities, group: GroupId, e: EndpointSpec)
    requires SameIdentities(ents, ents')
    ensures forall why :: RefusedFor(f, ents, group, e, why) <==> RefusedFor(f, ents', group, e, why)
    ensures Acceptable(f, ents, group, e) <==> Acceptable(f, ents', group, e)
  {
    forall why
      ensures RefusedFor(f, ents, group, e, why) <==> RefusedFor(f, ents', group, e, why)
    {
    }
  }

  ghost function AskedKind(f: Folding, e: EndpointSpec): Option<Kind>
    requires e.Foreign?
  {
    match e.kind
    case None => None
    case Some(k) => Some(f.trim(k))
  }

  /** What the lookup of an endpoint leaves of the entity table. */
  ghost function LookedUp(f: Folding, ents: Entities, e: EndpointSpec): Entities {
    match e
    case Local(_) => ents
    case Foreign(source, name, _) => LookupWrites(f, ents, source, f.clean(name), AskedKind(f, e))
  }

  /** The creation is refused exactly for what is wrong with its source, or, when that is in order, with its
    * target; it succeeds exactly when both are in order. A refusal leaves the graph as it was, apart from what
    * the lookup of a source in order healed. */
  lemma CreationRefusals(f: Folding, g: Graph, spec: EdgeSpec)
    requires WellFormed(g)
    ensures var (g', r) := CreateEdge(f, g, spec);
            && (r.NotCreated? ==>
                  g' == if Acceptable(f, g.entities, spec.group, spec.src)
                        then g.(entities := LookedUp(f, g.entities, spec.src)) else g)
            && (forall why ::
                  r == NotCreated(why)
                  <==> || RefusedFor(f, g.entities, spec.group, spec.src, why)
                       || (&& Acceptable(f, g.entities, spec.group, spec.src)
                           && RefusedFor(f, g.entities, spec.group, spec.dst, why)))
            && (r.Created?
                <==> && Acceptable(f, g.entities, spec.group, spec.src)
                     && Acceptable(f, g.entities, spec.group, spec.dst))
  {
    var g1 := SideWrites(f, g, spec.src, spec.group);
    SideWritesKeep(f, g, spec.src, spec.group);
    RefusalIs(f, g.entities, spec.group, spec.src);
    RefusalIs(f, g1.entities, spec.group, spec.dst);
    IdentitiesDecide(f, g.entities, g1.entities, spec.group, spec.dst);
  }

  // A created edge.

  /** One side of the new row `rn`. A local side has the given row as its hop, and no pointer. A foreign side
    * has a pointer with what was asserted, the name cleaned and the kind trimmed, stamped with the position
    * of the source group; its resolution is the one in `ents`, and so is its hop. */
  ghost predicate SideMade(f: Folding, ents: Entities, g: Graph, e: EndpointSpec, g': Graph, rn: Uuid, side: Side)
    requires rn in g'.edges
  {
    match e
    case Local(u) => g'.Hop(rn, side) == Some(u) && g'.edges[rn].pointers.At(side) == None
    case Foreign(source, name, _) =>
      var r := ResolveEndpoint(f, ents, source, f.clean(name), AskedKind(f, e));
      var p := g'.edges[rn].pointers.At(side);
      && g'.Hop(rn, side) == r.uuid
      && p.Some? && p.value.source == source && p.value.name == f.clean(name) && p.value.kind == AskedKind(f, e)
      && p.value.resolved == r.uuid && p.value.state == r.state
      && (if source in g.positions then p.value.boundAt == Some(g.positions[source]) else p.value.boundAt.None?)
  }

  /** The new row, apart from its sides, and the rest of the graph. */
  ghost predicate RowMade(g: Graph, spec: EdgeSpec, g': Graph, rn: Uuid) {
    && rn == g.next && rn !in g.edges && rn in g'.edges
    && g'.edges[rn].name == spec.name && g'.edges[rn].group == spec.group && g'.edges[rn].body == spec.body
    && g'.edges[rn].invalidAt.None?
    && (var a, b := g'.Hop(rn, Src), g'.Hop(rn, Dst);
        g'.Direct(rn) == if a.Some? && b.Some? then Some((a.value, b.value)) else None)
    && g'.edges == g.edges[rn := g'.edges[rn]]
    && (forall q, side :: q != rn ==> g'.Hop(q, side) == g.Hop(q, side))
    && (forall q :: q != rn ==> g'.Direct(q) == g.Direct(q))
    && g'.positions == g.positions && g'.next == g.next + 1
  }

  lemma SideIs(f: Folding, g: Graph, e: EndpointSpec, group: GroupId)
    requires Acceptable(f, g.entities, group, e)
    ensures ResolveSide(f, g, e, group).Endpoint?
    ensures SideWrites(f, g, e, group).entities == LookedUp(f, g.entities, e)
  {
    RefusalIs(f, g.entities, group, e);
  }

  lemma SideIsMade(f: Folding, g: Graph, e: EndpointSpec, group: GroupId, g': Graph, rn: Uuid, side: Side)
    requires Acceptable(f, g.entities, group, e) && rn in g'.edges
    requires var s := ResolveSide(f, g, e, group);
             s.Endpoint? && g'.Hop(rn, side) == s.hop && g'.edges[rn].pointers.At(side) == s.pointer
    ensures SideMade(f, g.entities, g, e, g', rn, side)
  {
    RefusalIs(f, g.entities, group, e);
  }

  lemma RowIsMade(g: Graph, spec: EdgeSpec, row: Edge, a: Option<Uuid>, b: Option<Uuid>)
    requires WellFormed(g)
    requires (a.Some? ==> a.value in g.entities) && (b.Some? ==> b.value in g.entities)
    requires row.name == spec.name && row.group == spec.group && row.body == spec.body && row.invalidAt.None?
    ensures var g', rn := InsertCrossGroup(g, row, a, b), g.next;
            && RowMade(g, spec, g', rn) && g'.entities == g.entities
            && g'.edges[rn] == row && g'.Hop(rn, Src) == a && g'.Hop(rn, Dst) == b
  {
    InsertedHops(g, row, a, b);
  }

  lemma SameRowMade(g: Graph, g2: Graph, spec: EdgeSpec, g': Graph, rn: Uuid)
    requires g2 == g.(entities := g2.entities) && RowMade(g2, spec, g', rn)
    ensures RowMade(g, spec, g', rn)
  {
    assert forall q, side :: g2.Hop(q, side) == g.Hop(q, side);
    assert forall q :: g2.Direct(q) == g.Direct(q);
  }

  /** What a created edge is. The source is resolved in the entity table as it was, the target in the one that
    * the source's lookup left, and the target's lookup leaves the final one. */
  lemma CreatedEdgeIs(f: Folding, g: Graph, spec: EdgeSpec)
    requires WellFormed(g)
    ensures var (g', r) := CreateEdge(f, g, spec); var ents1 := LookedUp(f, g.entities, spec.src);
            r.Created? ==>
              && RowMade(g, spec, g', r.rn)
              && SideMade(f, g.entities, g, spec.src, g', r.rn, Src)
              && SideMade(f, ents1, g, spec.dst, g', r.rn, Dst)
              && g'.entities == LookedUp(f, ents1, spec.dst)
  {
    CreationRefusals(f, g, spec);
    var (g', r) := CreateEdge(f, g, spec);
    if r.Created? {
      var g1 := SideWrites(f, g, spec.src, spec.group);
      SideWritesKeep(f, g, spec.src, spec.group);
      SideIs(f, g, spec.src, spec.group);
      IdentitiesDecide(f, g.entities, g1.entities, spec.group, spec.dst);
      SideIs(f, g1, spec.dst, spec.group);
      SideWritesKeep(f, g1, spec.dst, spec.group);
      var s, d := ResolveSide(f, g, spec.src, spec.group), ResolveSide(f, g1, spec.dst, spec.group);
      var g2 := SideWrites(f, g1, spec.dst, spec.group);
      RowIsMade(g2, spec, Edge(spec.name, spec.group, None, Pointers(s.pointer, d.pointer), spec.body), s.hop, d.hop);
      SameRowMade(g, g2, spec, g', r.rn);
      SideIsMade(f, g, spec.src, spec.group, g', r.rn, Src);
      SideIsMade(f, g1, spec.dst, spec.group, g', r.rn, Dst);
      assert g1.positions == g.positions;
    }
  }
}
