/** Creating a cross-group edge: both endpoints are resolved before anything is inserted, a foreign
  * endpoint keeps its pointer whether or not it resolves, and the new edge starts in step. */
module CrossGroupEdges {
  import opened Common
  import opened PropertyGraph
  import opened NameLookup
  import opened PointerResolution
  import opened Store
  import opened NameQueries

  datatype EndpointSpec =
    | Local(uuid: Uuid)
    | Foreign(source: GroupId, name: Name, kind: Option<Kind>)

  datatype EdgeSpec = EdgeSpec(name: Name, group: GroupId, src: EndpointSpec, dst: EndpointSpec, body: string)

  datatype EdgeError = NoSuchEndpoint | ForeignEndpoint | BlankEndpoint | InvalidKind

  /** One endpoint: the hop to create, if any, and the pointer of a foreign endpoint. */
  datatype Endpoint = Endpoint(hop: Option<Uuid>, pointer: Option<Pointer>) | Rejected(error: EdgeError)

  const MERGED_LABEL: Kind := "Merged"

  predicate ValidKind(f: Folding, kind: Kind) {
    f.trim(kind) != "" && SeparatorFree(f.trim(kind)) && f.trim(kind) != MERGED_LABEL
  }

  function SpecKind(f: Folding, kind: Option<Kind>): Option<Kind> {
    if kind.Some? then Some(f.trim(kind.value)) else None
  }

  function Refuses(f: Folding, ents: Entities, spec: EndpointSpec, group: GroupId): Option<EdgeError> {
    match spec
    case Local(u) =>
      if u !in ents then Some(NoSuchEndpoint)
      else if ents[u].group != group then Some(ForeignEndpoint)
      else None
    case Foreign(source, name, kind) =>
      if f.trim(source) == "" || f.trim(name) == "" then Some(BlankEndpoint)
      else if kind.Some? && !ValidKind(f, kind.value) then Some(InvalidKind)
      else None
  }

  /** `resolve_side`. */
  function ResolveSide(f: Folding, g: Graph, spec: EndpointSpec, group: GroupId): (e: Endpoint)
    ensures e.Endpoint? && e.pointer.Some? ==> e.hop == e.pointer.value.resolved
    ensures e.Endpoint? && e.hop.Some? ==> e.hop.value in g.entities
  {
    var refusal := Refuses(f, g.entities, spec, group);
    if refusal.Some? then Rejected(refusal.value)
    else
      match spec
      case Local(u) => Endpoint(Some(u), None)
      case Foreign(source, name, kind) =>
        var r := ResolveEndpoint(f, g.entities, source, f.clean(name), SpecKind(f, kind));
        Endpoint(r.uuid, Some(Pointer(source, f.clean(name), SpecKind(f, kind), r.uuid, g.Position(source), r.state)))
  }

  /** The healing that the endpoint's lookup leaves behind. */
  function SideWrites(f: Folding, g: Graph, spec: EndpointSpec, group: GroupId): Graph {
    if spec.Foreign? && Refuses(f, g.entities, spec, group).None? then
      g.(entities := LookupWrites(f, g.entities, spec.source, f.clean(spec.name), SpecKind(f, spec.kind)))
    else g
  }

  /** `insert_cross_group_edge`: the row, the rel when both ends resolve, and each hop on its own. */
  function InsertCrossGroup(g: Graph, row: Edge, a: Option<Uuid>, b: Option<Uuid>): Graph {
    var rn := g.next;
    var g1 := g.(edges := g.edges[rn := row], next := rn + 1);
    var g2 := if a.Some? && b.Some? then g1.CreateDirect(rn, a.value, b.value) else g1;
    var g3 := if a.Some? then g2.CreateHop(rn, Src, a.value) else g2;
    if b.Some? then g3.CreateHop(rn, Dst, b.value) else g3
  }

  datatype Created = Created(rn: Uuid) | NotCreated(error: EdgeError)

  /** `create_cross_group_edge`. */
  function CreateEdge(f: Folding, g: Graph, spec: EdgeSpec): (Graph, Created) {
    var s, g1 := ResolveSide(f, g, spec.src, spec.group), SideWrites(f, g, spec.src, spec.group);
    if s.Rejected? then (g1, NotCreated(s.error))
    else
      var d, g2 := ResolveSide(f, g1, spec.dst, spec.group), SideWrites(f, g1, spec.dst, spec.group);
      if d.Rejected? then (g2, NotCreated(d.error))
      else
        var row := Edge(spec.name, spec.group, None, Pointers(s.pointer, d.pointer), spec.body);
        (InsertCrossGroup(g2, row, s.hop, d.hop), Created(g2.next))
  }

  /** The log grew, and holds a write for every entity row that changed. */
  ghost predicate HealsAppended(ents: Entities, ents': Entities, before: seq<Mutation>, after: seq<Mutation>) {
    HealsLogged(ents, ents', before, after) && after[..|before|] == before
  }

  lemma AppendedTwice(e0: Entities, e1: Entities, e2: Entities, a: seq<Mutation>, b: seq<Mutation>, c: seq<Mutation>)
    requires HealsAppended(e0, e1, a, b) && HealsAppended(e1, e2, b, c)
    ensures HealsAppended(e0, e2, a, c)
  {
    LoggedTwice(e0, e1, e2, a, b, c);
    assert c[..|a|] == c[..|b|][..|a|];
  }

  /** Every row that is written, healed ones included, is in the log. */
  method CreateCrossGroupEdge(db: Db, spec: EdgeSpec) returns (r: Created)
    requires WellFormed(db.View())
    modifies db
    ensures (db.View(), r) == CreateEdge(db.fold, old(db.View()), spec)
    ensures HealsAppended(old(db.entities), db.entities, old(db.mutations), db.mutations)
    ensures r.Created? ==> EdgeWrite(r.rn) in db.mutations[|old(db.mutations)|..]
  {
    ghost var e0, m0 := db.entities, db.mutations;
    SideWritesKeep(db.fold, db.View(), spec.src, spec.group);
    var s := ResolveSideOf(db, spec.src, spec.group);
    if s.Rejected? {
      return NotCreated(s.error);
    }
    ghost var e1, m1 := db.entities, db.mutations;
    SideWritesKeep(db.fold, db.View(), spec.dst, spec.group);
    var d := ResolveSideOf(db, spec.dst, spec.group);
    AppendedTwice(e0, e1, db.entities, m0, m1, db.mutations);
    if d.Rejected? {
      return NotCreated(d.error);
    }
    ghost var e2, m2 := db.entities, db.mutations;
    var row := Edge(spec.name, spec.group, None, Pointers(s.pointer, d.pointer), spec.body);
    var rn := InsertCrossGroupEdge(db, row, s.hop, d.hop);
    AppendedTwice(e0, e2, db.entities, m0, m2, db.mutations);
    WrittenSince(m0, m2, db.mutations, rn);
    r := Created(rn);
  }

  lemma WrittenSince(before: seq<Mutation>, between: seq<Mutation>, after: seq<Mutation>, rn: Uuid)
    requires |before| <= |between| < |after| && after[|between|] == EdgeWrite(rn)
    ensures EdgeWrite(rn) in after[|before|..]
  {
    assert after[|before|..][|between| - |before|] == EdgeWrite(rn);
  }

  method ResolveSideOf(db: Db, spec: EndpointSpec, group: GroupId) returns (e: Endpoint)
    modifies db`entities, db`mutations
    ensures e == ResolveSide(db.fold, old(db.View()), spec, group)
    ensures db.View() == SideWrites(db.fold, old(db.View()), spec, group)
    ensures HealsAppended(old(db.entities), db.entities, old(db.mutations), db.mutations)
  {
    var refusal := Refuses(db.fold, db.entities, spec, group);
    if refusal.Some? {
      return Rejected(refusal.value);
    }
    match spec {
      case Local(u) =>
        e := Endpoint(Some(u), None);
      case Foreign(source, name, kind) =>
        var clean, k := db.fold.clean(name), SpecKind(db.fold, kind);
        var r := ResolveEndpointKind(db, source, clean, k);
        e := Endpoint(r.uuid, Some(Pointer(source, clean, k, r.uuid, db.View().Position(source), r.state)));
    }
  }

  method InsertCrossGroupEdge(db: Db, row: Edge, a: Option<Uuid>, b: Option<Uuid>) returns (rn: Uuid)
    requires WellFormed(db.View())
    modifies db
    ensures rn == old(db.next) && db.View() == InsertCrossGroup(old(db.View()), row, a, b)
    ensures HealsAppended(old(db.entities), db.entities, old(db.mutations), db.mutations)
    ensures |old(db.mutations)| < |db.mutations| && db.mutations[|old(db.mutations)|] == EdgeWrite(rn)
  {
    FreshRow(db.View());
    rn := db.next;
    db.edges := db.edges[rn := row];
    db.next := rn + 1;
    db.mutations := db.mutations + [EdgeWrite(rn)];
    if a.Some? && b.Some? {
      db.CreateDirect(rn, a.value, b.value);
    }
    if a.Some? {
      db.CreateHop(rn, Src, a.value);
    }
    if b.Some? {
      db.CreateHop(rn, Dst, b.value);
    }
  }

  lemma FreshRow(g: Graph)
    requires WellFormed(g)
    ensures g.next !in g.edges && g.next !in g.src && g.next !in g.dst && g.next !in g.direct
  {
    assert DirectSynced(g, g.next);
  }

  lemma SideWritesKeep(f: Folding, g: Graph, spec: EndpointSpec, group: GroupId)
    requires WellFormed(g)
    ensures var g' := SideWrites(f, g, spec, group);
            WellFormed(g') && g' == g.(entities := g'.entities) && SameIdentities(g.entities, g'.entities)
  {
    var g' := SideWrites(f, g, spec, group);
    if g' != g {
      LookupWritesKeepIdentities(f, g.entities, spec.source, f.clean(spec.name), SpecKind(f, spec.kind));
    }
    HealedWellFormed(g, g');
  }

  /** Row `rn` is new, active and in step: the hop on each foreign side is the cached resolution.
    * No other row changed. */
  ghost predicate NewEdgeInStep(g: Graph, g': Graph, rn: Uuid) {
    && rn !in g.edges && g'.Active(rn)
    && g'.edges == g.edges[rn := g'.edges[rn]]
    && (forall q, side :: q != rn ==> g'.Hop(q, side) == g.Hop(q, side))
    && (forall side: Side :: g'.edges[rn].pointers.At(side).Some? ==>
          g'.Hop(rn, side) == g'.edges[rn].pointers.At(side).value.resolved)
  }

  /** A refused endpoint leaves no edge behind; a created edge is in step, and the rel exists exactly
    * when both hops do. */
  lemma CreatedEdgeIsInStep(f: Folding, g: Graph, spec: EdgeSpec)
    requires WellFormed(g)
    ensures var (g', r) := CreateEdge(f, g, spec);
            && WellFormed(g') && SameIdentities(g.entities, g'.entities) && g'.positions == g.positions
            && (r.NotCreated? ==> g' == g.(entities := g'.entities))
            && (r.Created? ==> NewEdgeInStep(g, g', r.rn))
  {
    var s, g1 := ResolveSide(f, g, spec.src, spec.group), SideWrites(f, g, spec.src, spec.group);
    SideWritesKeep(f, g, spec.src, spec.group);
    if s.Endpoint? {
      var d, g2 := ResolveSide(f, g1, spec.dst, spec.group), SideWrites(f, g1, spec.dst, spec.group);
      SideWritesKeep(f, g1, spec.dst, spec.group);
      if d.Endpoint? {
        InsertsNewEdge(g, g2, s, d, spec);
      }
    }
  }

  lemma InsertsNewEdge(g: Graph, g2: Graph, s: Endpoint, d: Endpoint, spec: EdgeSpec)
    requires WellFormed(g2) && g2 == g.(entities := g2.entities) && SameIdentities(g.entities, g2.entities)
    requires s.Endpoint? && d.Endpoint?
    requires (s.hop.Some? ==> s.hop.value in g2.entities) && (d.hop.Some? ==> d.hop.value in g2.entities)
    requires (s.pointer.Some? ==> s.hop == s.pointer.value.resolved)
    requires (d.pointer.Some? ==> d.hop == d.pointer.value.resolved)
    ensures var g' := InsertCrossGroup(g2, Edge(spec.name, spec.group, None, Pointers(s.pointer, d.pointer), spec.body),
                                       s.hop, d.hop);
            WellFormed(g') && SameIdentities(g.entities, g'.entities) && g'.positions == g.positions
            && NewEdgeInStep(g, g', g2.next)
  {
    InsertedInStep(g2, Edge(spec.name, spec.group, None, Pointers(s.pointer, d.pointer), spec.body), s.hop, d.hop);
  }

  lemma InsertedInStep(g: Graph, row: Edge, a: Option<Uuid>, b: Option<Uuid>)
    requires WellFormed(g)
    requires (a.Some? ==> a.value in g.entities) && (b.Some? ==> b.value in g.entities)
    ensures var g', rn := InsertCrossGroup(g, row, a, b), g.next;
            && WellFormed(g') && rn !in g.edges
            && g'.edges == g.edges[rn := row] && g'.entities == g.entities && g'.positions == g.positions
            && g'.Hop(rn, Src) == a && g'.Hop(rn, Dst) == b
            && (forall q, side :: q != rn ==> g'.Hop(q, side) == g.Hop(q, side))
  {
    InsertedHops(g, row, a, b);
    var g' := InsertCrossGroup(g, row, a, b);
    forall q
      ensures DirectSynced(g', q)
    {
      assert DirectSynced(g, q);
      assert q != g.next ==> g'.Hop(q, Src) == g.Hop(q, Src) && g'.Hop(q, Dst) == g.Hop(q, Dst);
    }
    HopsLive(g, g', a, b);
  }

  lemma InsertedHops(g: Graph, row: Edge, a: Option<Uuid>, b: Option<Uuid>)
    requires WellFormed(g)
    requires (a.Some? ==> a.value in g.entities) && (b.Some? ==> b.value in g.entities)
    ensures g.next !in g.edges
    ensures var g', rn := InsertCrossGroup(g, row, a, b), g.next;
            && g'.edges == g.edges[rn := row] && g'.entities == g.entities && g'.positions == g.positions
            && g'.next == rn + 1
            && g'.Hop(rn, Src) == a && g'.Hop(rn, Dst) == b
            && g'.Direct(rn) == (if a.Some? && b.Some? then Some((a.value, b.value)) else None)
            && (forall q, side :: q != rn ==> g'.Hop(q, side) == g.Hop(q, side))
            && (forall q :: q != rn ==> g'.Direct(q) == g.Direct(q))
  {
    FreshRow(g);
  }

  lemma HopsLive(g: Graph, g': Graph, a: Option<Uuid>, b: Option<Uuid>)
    requires WellFormed(g) && g'.entities == g.entities && g.edges.Keys <= g'.edges.Keys && g.next in g'.edges
    requires (a.Some? ==> a.value in g.entities) && (b.Some? ==> b.value in g.entities)
    requires g'.Hop(g.next, Src) == a && g'.Hop(g.next, Dst) == b
    requires forall q, side :: q != g.next ==> g'.Hop(q, side) == g.Hop(q, side)
    ensures forall q <- g'.src :: q in g'.edges && g'.src[q] in g'.entities
    ensures forall q <- g'.dst :: q in g'.edges && g'.dst[q] in g'.entities
  {
    forall q <- g'.src
      ensures q in g'.edges && g'.src[q] in g'.entities
    {
      assert g'.Hop(q, Src) == Some(g'.src[q]);
    }
    forall q <- g'.dst
      ensures q in g'.edges && g'.dst[q] in g'.entities
    {
      assert g'.Hop(q, Dst) == Some(g'.dst[q]);
    }
  }
}
