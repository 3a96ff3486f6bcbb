/** The property graph: entities, edge rows with their two hops and their compatibility rel, and
  * each group's applied position. Everything else in the project is stated over the value
  * `Graph`; module `Store` gives the mutable database whose abstraction it is. */
module PropertyGraph {
  import opened Common

  // Identifiers and timestamps are compared and ordered, never inspected.
  type Uuid = nat
  type Timestamp = nat
  type Name = string
  type GroupId = string
  type Kind = string

  const DEFAULT_KIND: Kind := "Entity"

  /** An entity row. `storedKind` is the raw column: `None` is a NULL or blank column, which every
    * reader maps to the default kind. `merged` says that the labels contain `Merged`;
    * `mergedInto` is the forwarding reference kept in the attributes. */
  datatype Entity = Entity(
    name: Name,
    group: GroupId,
    storedKind: Option<Kind>,
    merged: bool,
    mergedInto: Option<Uuid>,
    createdAt: Timestamp,
    lookupKey: Option<string>)
  {
    function Kind(): Kind {
      if storedKind.Some? then storedKind.value else DEFAULT_KIND
    }
  }

  type Entities = map<Uuid, Entity>

  datatype BindingState = Bound | Unbound | Ambiguous

  datatype Side = Src | Dst

  /** A resolvable reference to an entity of another group: `source`, `name` and `kind` are the
    * assertion, the rest caches what the last resolution found. */
  datatype Pointer = Pointer(
    source: GroupId,
    name: Name,
    kind: Option<Kind>,
    resolved: Option<Uuid>,
    boundAt: Option<nat>,
    state: BindingState)

  datatype Pointers = Pointers(src: Option<Pointer>, dst: Option<Pointer>)
  {
    function At(side: Side): Option<Pointer> {
      if side.Src? then src else dst
    }

    function Set(side: Side, p: Pointer): Pointers {
      if side.Src? then this.(src := Some(p)) else this.(dst := Some(p))
    }

    predicate Empty() {
      src.None? && dst.None?
    }
  }

  /** An edge row (`RelatesToNode_`). `body` stands for the columns that are only ever copied:
    * fact, embedding, relation type, the event times and the ingest time. */
  datatype Edge = Edge(
    name: Name,
    group: GroupId,
    invalidAt: Option<Timestamp>,
    pointers: Pointers,
    body: string)

  /** The whole graph. `src` and `dst` are the hops entity->row and row->entity, keyed by row;
    * `direct` is the entity->entity compatibility rel that carries the row's uuid. `next` is
    * above every row uuid ever issued, so it is fresh. */
  datatype Graph = Graph(
    entities: Entities,
    edges: map<Uuid, Edge>,
    src: map<Uuid, Uuid>,
    dst: map<Uuid, Uuid>,
    direct: map<Uuid, (Uuid, Uuid)>,
    positions: map<GroupId, nat>,
    next: Uuid)
  {
    function Hop(rn: Uuid, side: Side): Option<Uuid> {
      if side.Src? then (if rn in src then Some(src[rn]) else None)
      else (if rn in dst then Some(dst[rn]) else None)
    }

    function Direct(rn: Uuid): Option<(Uuid, Uuid)> {
      if rn in direct then Some(direct[rn]) else None
    }

    predicate Active(rn: Uuid) {
      rn in edges && edges[rn].invalidAt.None?
    }

    predicate Complete(rn: Uuid) {
      rn in src && rn in dst
    }

    /** The row is an active edge of `group` called `name` from `a` to `b`. */
    predicate Links(rn: Uuid, a: Uuid, b: Uuid, name: Name, group: GroupId) {
      && Active(rn)
      && Complete(rn)
      && src[rn] == a
      && dst[rn] == b
      && edges[rn].name == name
      && edges[rn].group == group
    }

    /** What `has_directed_edge` asks the database. */
    predicate HasDirectedEdge(a: Uuid, b: Uuid, name: Name, group: GroupId) {
      exists rn | rn in edges :: Links(rn, a, b, name, group)
    }

    function Position(group: GroupId): Option<nat> {
      if group in positions then Some(positions[group]) else None
    }

    function ActiveEdges(): set<Uuid> {
      set rn | rn in edges && edges[rn].invalidAt.None?
    }

    // The relational effect of each write.

    function Invalidate(rn: Uuid, ts: Timestamp): Graph {
      if rn in edges then this.(edges := edges[rn := edges[rn].(invalidAt := Some(ts))]) else this
    }

    function CreateHop(rn: Uuid, side: Side, entity: Uuid): Graph {
      if rn !in edges || entity !in entities then this
      else if side.Src? then this.(src := src[rn := entity])
      else this.(dst := dst[rn := entity])
    }

    function DeleteHop(rn: Uuid, side: Side): Graph {
      if side.Src? then this.(src := src - {rn}) else this.(dst := dst - {rn})
    }

    function CreateDirect(rn: Uuid, a: Uuid, b: Uuid): Graph {
      if a !in entities || b !in entities then this
      else this.(direct := direct[rn := (a, b)])
    }

    function DeleteDirect(rn: Uuid): Graph {
      this.(direct := direct - {rn})
    }

    function SetPointers(rn: Uuid, p: Pointers): Graph {
      if rn in edges then this.(edges := edges[rn := edges[rn].(pointers := p)]) else this
    }

    /** `insert_relates_to_edge`: the row always, the rel and both hops only when both entities
      * exist. */
    function InsertEdge(row: Edge, a: Uuid, b: Uuid): Graph {
      var g := this.(edges := edges[next := row], next := next + 1);
      if a in entities && b in entities then
        g.(src := src[next := a], dst := dst[next := b], direct := direct[next := (a, b)])
      else
        g
    }
  }

  /** The structural invariant every operation keeps: rows are below `next`, hops belong to rows
    * and reach live entities, and the compatibility rel exists exactly when both hops do. */
  ghost predicate WellFormed(g: Graph) {
    && (forall rn <- g.edges :: rn < g.next)
    && (forall rn <- g.src :: rn in g.edges && g.src[rn] in g.entities)
    && (forall rn <- g.dst :: rn in g.edges && g.dst[rn] in g.entities)
    && (forall rn :: DirectSynced(g, rn))
  }

  ghost predicate DirectSynced(g: Graph, rn: Uuid) {
    g.Direct(rn) == if g.Complete(rn) then Some((g.src[rn], g.dst[rn])) else None
  }

  /** No two active rows join the same pair under the same name in the same group. */
  ghost predicate UniqueActive(g: Graph) {
    forall r, q, a, b, name, group ::
      g.Links(r, a, b, name, group) && g.Links(q, a, b, name, group) ==> r == q
  }

  ghost predicate SelfLoop(g: Graph, rn: Uuid) {
    g.Active(rn) && g.Complete(rn) && g.src[rn] == g.dst[rn]
  }

  /** Two rows that state the same fact twice. */
  ghost predicate Duplicates(g: Graph, r: Uuid, q: Uuid) {
    && r != q
    && g.Active(r) && g.Active(q) && g.Complete(r) && g.Complete(q)
    && g.src[r] == g.src[q] && g.dst[r] == g.dst[q]
    && g.edges[r].name == g.edges[q].name
    && g.edges[r].group == g.edges[q].group
  }

  lemma UniqueMeansNoDuplicates(g: Graph)
    ensures UniqueActive(g) <==> forall r, q :: !Duplicates(g, r, q)
  {
    if !UniqueActive(g) {
      var r, q, a, b, name, group :|
        g.Links(r, a, b, name, group) && g.Links(q, a, b, name, group) && r != q;
      assert Duplicates(g, r, q);
    }
    forall r, q | Duplicates(g, r, q)
      ensures !UniqueActive(g)
    {
      assert g.Links(r, g.src[r], g.dst[r], g.edges[r].name, g.edges[r].group);
      assert g.Links(q, g.src[r], g.dst[r], g.edges[r].name, g.edges[r].group);
    }
  }
}
