/** The database connection: the tables as mutable maps, the statements the graph code issues, and
  * the log of mutations that a caller drains into the write-ahead log. */
module Store {
  import opened Common
  import opened PropertyGraph
  import opened NameLookup

  /** What a recorded statement addressed. */
  datatype Mutation = EdgeWrite(rn: Uuid) | EntityWrite(uuid: Uuid)

  /** A full edge row as `get_full_edges_for_entity` returns it: a snapshot. */
  datatype FullEdge = FullEdge(uuid: Uuid, src: Uuid, dst: Uuid, row: Edge)

  class Db {
    const fold: Folding
    var entities: Entities
    var edges: map<Uuid, Edge>
    var src: map<Uuid, Uuid>
    var dst: map<Uuid, Uuid>
    var direct: map<Uuid, (Uuid, Uuid)>
    var positions: map<GroupId, nat>
    var next: Uuid
    var mutations: seq<Mutation>

    function View(): Graph
      reads this
    {
      Graph(entities, edges, src, dst, direct, positions, next)
    }

    constructor (fold: Folding, g: Graph)
      ensures this.fold == fold && View() == g && mutations == []
    {
      this.fold := fold;
      entities, edges, src, dst := g.entities, g.edges, g.src, g.dst;
      direct, positions, next := g.direct, g.positions, g.next;
      mutations := [];
    }

    method InvalidateEdge(rn: Uuid, ts: Timestamp)
      modifies this`edges, this`mutations
      ensures View() == old(View()).Invalidate(rn, ts)
      ensures mutations == old(mutations) + [EdgeWrite(rn)]
    {
      if rn in edges {
        edges := edges[rn := edges[rn].(invalidAt := Some(ts))];
      }
      mutations := mutations + [EdgeWrite(rn)];
    }

    /** Inserts a row under a fresh uuid, its compatibility rel and both hops. */
    method InsertRelatesToEdge(row: Edge, a: Uuid, b: Uuid) returns (rn: Uuid)
      modifies this`edges, this`src, this`dst, this`direct, this`next, this`mutations
      ensures rn == old(next)
      ensures View() == old(View()).InsertEdge(row, a, b)
      ensures mutations == old(mutations) + [EdgeWrite(rn)]
    {
      rn := next;
      edges := edges[rn := row];
      next := next + 1;
      if a in entities && b in entities {
        direct := direct[rn := (a, b)];
        src, dst := src[rn := a], dst[rn := b];
      }
      mutations := mutations + [EdgeWrite(rn)];
    }

    /** `MERGE` of one hop. The map keeps one hop per side, so a caller that may find another one
      * there clears it first, as the code does. */
    method CreateHop(rn: Uuid, side: Side, entity: Uuid)
      requires View().Hop(rn, side) in {None, Some(entity)}
      modifies this`src, this`dst, this`mutations
      ensures View() == old(View()).CreateHop(rn, side, entity)
      ensures mutations == old(mutations) + [EdgeWrite(rn)]
    {
      if rn in edges && entity in entities {
        match side {
          case Src => src := src[rn := entity];
          case Dst => dst := dst[rn := entity];
        }
      }
      mutations := mutations + [EdgeWrite(rn)];
    }

    method DeleteHop(rn: Uuid, side: Side)
      modifies this`src, this`dst, this`mutations
      ensures View() == old(View()).DeleteHop(rn, side)
      ensures mutations == old(mutations) + [EdgeWrite(rn)]
    {
      match side {
        case Src => src := src - {rn};
        case Dst => dst := dst - {rn};
      }
      mutations := mutations + [EdgeWrite(rn)];
    }

    method CreateDirect(rn: Uuid, a: Uuid, b: Uuid)
      requires rn !in direct
      modifies this`direct, this`mutations
      ensures View() == old(View()).CreateDirect(rn, a, b)
      ensures mutations == old(mutations) + [EdgeWrite(rn)]
    {
      if a in entities && b in entities {
        direct := direct[rn := (a, b)];
      }
      mutations := mutations + [EdgeWrite(rn)];
    }

    method DeleteDirect(rn: Uuid)
      modifies this`direct, this`mutations
      ensures View() == old(View()).DeleteDirect(rn)
      ensures mutations == old(mutations) + [EdgeWrite(rn)]
    {
      direct := direct - {rn};
      mutations := mutations + [EdgeWrite(rn)];
    }

    method UpdatePointers(rn: Uuid, p: Pointers)
      modifies this`edges, this`mutations
      ensures View() == old(View()).SetPointers(rn, p)
      ensures mutations == old(mutations) + [EdgeWrite(rn)]
    {
      if rn in edges {
        edges := edges[rn := edges[rn].(pointers := p)];
      }
      mutations := mutations + [EdgeWrite(rn)];
    }

    method SetEntity(u: Uuid, e: Entity)
      requires u in entities
      modifies this`entities, this`mutations
      ensures View() == old(View()).(entities := old(entities)[u := e])
      ensures mutations == old(mutations) + [EntityWrite(u)]
    {
      entities := entities[u := e];
      mutations := mutations + [EntityWrite(u)];
    }

    /** The rows whose hop on `side` reaches `entity` and whose other hop exists, in whatever order
      * the engine yields them. */
    method EdgesOn(entity: Uuid, side: Side) returns (rows: seq<FullEdge>)
      ensures SideListing(View(), entity, side, rows)
    {
      rows := [];
      var todo := set rn | rn in edges && View().Complete(rn) && View().Hop(rn, side) == Some(entity);
      ghost var all := todo;
      while todo != {}
        invariant todo <= all
        invariant forall i :: 0 <= i < |rows| ==>
                    Snapshot(View(), rows[i]) && rows[i].uuid in all && rows[i].uuid !in todo
        invariant forall i, j :: 0 <= i < j < |rows| ==> rows[i].uuid != rows[j].uuid
        invariant forall rn <- all :: rn in todo || exists i :: 0 <= i < |rows| && rows[i].uuid == rn
        decreases todo
      {
        var rn :| rn in todo;
        ghost var before := rows;
        rows := rows + [FullEdge(rn, src[rn], dst[rn], edges[rn])];
        todo := todo - {rn};
        assert rows[|before|].uuid == rn;
        assert forall i :: 0 <= i < |before| ==> rows[i] == before[i];
      }
      forall rn: Uuid | rn in edges && View().Complete(rn) && View().Hop(rn, side) == Some(entity)
        ensures exists i :: 0 <= i < |rows| && rows[i].uuid == rn
      {
        assert rn in all;
      }
    }

    /** Outgoing edges first, then incoming: an edge from the entity to itself is listed twice. */
    method GetFullEdgesForEntity(entity: Uuid) returns (rows: seq<FullEdge>, ghost split: nat)
      ensures Listing(View(), entity, rows, split)
    {
      var outgoing := EdgesOn(entity, Src);
      var incoming := EdgesOn(entity, Dst);
      rows, split := outgoing + incoming, |outgoing|;
      assert rows[..split] == outgoing && rows[split..] == incoming;
    }
  }

  ghost predicate Snapshot(g: Graph, e: FullEdge) {
    && e.uuid in g.edges
    && g.Complete(e.uuid)
    && g.src[e.uuid] == e.src
    && g.dst[e.uuid] == e.dst
    && g.edges[e.uuid] == e.row
  }

  ghost predicate SideListing(g: Graph, entity: Uuid, side: Side, rows: seq<FullEdge>) {
    && (forall i :: 0 <= i < |rows| ==> Snapshot(g, rows[i]) && g.Hop(rows[i].uuid, side) == Some(entity))
    && (forall i, j :: 0 <= i < j < |rows| ==> rows[i].uuid != rows[j].uuid)
    && (forall rn :: rn in g.edges && g.Complete(rn) && g.Hop(rn, side) == Some(entity)
          ==> exists i :: 0 <= i < |rows| && rows[i].uuid == rn)
  }

  ghost predicate Listing(g: Graph, entity: Uuid, rows: seq<FullEdge>, split: nat) {
    && split <= |rows|
    && SideListing(g, entity, Src, rows[..split])
    && SideListing(g, entity, Dst, rows[split..])
  }
}
