/** The dump of the database into log lines: paged loops over the tables in uuid order, all nodes
  * before any edge, and the replay that a dump must survive. */
module Dump {
  import opened Common
  import opened PropertyGraph
  import opened UuidOrder

  const PAGE_SIZE := 500

  /** A 32-bit float: JSON cannot write one that is not finite. */
  datatype Float = Finite(value: real) | NotFinite

  type Vector = seq<Float>

  datatype Table = EntityNode | EpisodicNode | EdgeNode | CommunityNode | SagaNode

  datatype Id = Id(table: Table, uuid: Uuid)

  /** The columns of a node; those that its table does not have are empty. `rest` stands for the
    * columns that are carried through as they are. */
  datatype Columns = Columns(
    group: GroupId,
    createdAt: Timestamp,
    kind: Option<Kind>,
    embedding: Vector,
    summaryEmbedding: Vector,
    ingestedAt: Option<Timestamp>,
    rest: string)

  /** A stored node. `lookupKey` is derived, and not dumped. */
  datatype Row = Row(columns: Columns, lookupKey: Option<string>)

  /** The database as far as a dump sees it: nodes, and the two hops of each edge node. */
  datatype Base = Base(nodes: map<Id, Row>, src: map<Uuid, Uuid>, dst: map<Uuid, Uuid>)

  const EMPTY_BASE := Base(map[], map[], map[])

  datatype Line = NodeLine(id: Id, columns: Columns) | LinkLine(src: Uuid, edge: Uuid, dst: Uuid)

  // What a line says.

  function WriteFloat(f: Float): Float {
    if f.Finite? then f else Finite(0.0)
  }

  function WriteVector(v: Vector): Vector {
    seq(|v|, i requires 0 <= i < |v| => WriteFloat(v[i]))
  }

  function Zeros(n: nat): Vector {
    seq(n, _ => Finite(0.0))
  }

  /** The parameters written for a node of this table. */
  function Written(table: Table, c: Columns): Columns {
    match table
    case EntityNode =>
      c.(kind := Some(if c.kind.Some? then c.kind.value else DEFAULT_KIND),
         embedding := WriteVector(c.embedding),
         summaryEmbedding := if c.summaryEmbedding == [] then Zeros(|c.embedding|) else WriteVector(c.summaryEmbedding),
         ingestedAt := Some(if c.ingestedAt.Some? then c.ingestedAt.value else c.createdAt))
    case EpisodicNode | EdgeNode =>
      c.(kind := None, embedding := WriteVector(c.embedding), summaryEmbedding := [],
         ingestedAt := Some(if c.ingestedAt.Some? then c.ingestedAt.value else c.createdAt))
    case CommunityNode =>
      c.(kind := None, embedding := WriteVector(c.embedding), summaryEmbedding := [], ingestedAt := None)
    case SagaNode =>
      c.(kind := None, embedding := [], summaryEmbedding := [], ingestedAt := None)
  }

  /** What was written once is written the same again. */
  lemma WrittenIsStable(table: Table, c: Columns)
    ensures Written(table, Written(table, c)) == Written(table, c)
  {
    assert WriteVector(WriteVector(c.embedding)) == WriteVector(c.embedding);
    assert WriteVector(WriteVector(c.summaryEmbedding)) == WriteVector(c.summaryEmbedding);
    assert WriteVector(Zeros(|c.embedding|)) == Zeros(|c.embedding|);
    if c.summaryEmbedding != [] {
      assert |WriteVector(c.summaryEmbedding)| > 0;
    }
  }

  // What a dump says.

  predicate InScope(scope: Option<GroupId>, group: GroupId) {
    scope.None? || scope.value == group
  }

  function NodeKeys(b: Base, scope: Option<GroupId>, table: Table): set<Uuid> {
    set id | id in b.nodes && id.table == table && InScope(scope, b.nodes[id].columns.group) :: id.uuid
  }

  /** The edge nodes with both hops, each end an entity. */
  predicate Complete(b: Base, rn: Uuid) {
    && Id(EdgeNode, rn) in b.nodes && rn in b.src && rn in b.dst
    && Id(EntityNode, b.src[rn]) in b.nodes && Id(EntityNode, b.dst[rn]) in b.nodes
  }

  function LinkKeys(b: Base, scope: Option<GroupId>): set<Uuid> {
    set rn | rn in b.src && Complete(b, rn) && InScope(scope, b.nodes[Id(EdgeNode, rn)].columns.group)
  }

  function NodeLineOf(b: Base, id: Id): Line
    requires id in b.nodes
  {
    NodeLine(id, Written(id.table, b.nodes[id].columns))
  }

  function LinkLineOf(b: Base, rn: Uuid): Line
    requires Complete(b, rn)
  {
    LinkLine(b.src[rn], rn, b.dst[rn])
  }

  function NodeLines(b: Base, table: Table, keys: seq<Uuid>): seq<Line>
    requires forall u :: u in keys ==> Id(table, u) in b.nodes
  {
    if keys == [] then []
    else NodeLines(b, table, keys[..|keys| - 1]) + [NodeLineOf(b, Id(table, keys[|keys| - 1]))]
  }

  function LinkLines(b: Base, keys: seq<Uuid>): seq<Line>
    requires forall rn :: rn in keys ==> Complete(b, rn)
  {
    if keys == [] then []
    else LinkLines(b, keys[..|keys| - 1]) + [LinkLineOf(b, keys[|keys| - 1])]
  }

  const TABLES := [EntityNode, EpisodicNode, EdgeNode, CommunityNode, SagaNode]

  /** The node phase, table after table. */
  function NodePhase(b: Base, scope: Option<GroupId>, tables: seq<Table>): seq<Line> {
    if tables == [] then []
    else
      var table := tables[|tables| - 1];
      NodePhase(b, scope, tables[..|tables| - 1]) + NodeLines(b, table, Sorted(NodeKeys(b, scope, table)))
  }

  function EdgePhase(b: Base, scope: Option<GroupId>): seq<Line> {
    LinkLines(b, Sorted(LinkKeys(b, scope)))
  }

  function DumpWith(b: Base, scope: Option<GroupId>, tables: seq<Table>): seq<Line> {
    NodePhase(b, scope, tables) + EdgePhase(b, scope)
  }

  function DumpOf(b: Base, scope: Option<GroupId>): seq<Line> {
    DumpWith(b, scope, TABLES)
  }

  // The dump as it runs.

  class WalWriter {
    var lines: seq<Line>

    constructor ()
      ensures lines == []
    {
      lines := [];
    }

    method LogMutation(line: Line)
      modifies this
      ensures lines == old(lines) + [line]
    {
      lines := lines + [line];
    }
  }

  /** `SKIP offset LIMIT limit` on an ordered result. */
  function Page(rows: seq<Line>, offset: nat, limit: nat): seq<Line> {
    if offset >= |rows| then []
    else if offset + limit >= |rows| then rows[offset..]
    else rows[offset..offset + limit]
  }

  /** The paged loop, which every table shares: `rows` is the whole ordered result, each row as the
    * line written for it. Whatever its length, each row is visited once, in order. */
  method DumpPages(rows: seq<Line>, w: WalWriter) returns (total: nat)
    modifies w
    ensures w.lines == old(w.lines) + rows && total == |rows|
  {
    ghost var before := w.lines;
    total := 0;
    var offset := 0;
    while true
      invariant offset == total <= |rows|
      invariant w.lines == before + rows[..total]
      decreases |rows| - offset
    {
      var page := Page(rows, offset, PAGE_SIZE);
      var count := |page|;
      for i := 0 to count
        invariant w.lines == before + rows[..total + i]
      {
        assert page[i] == rows[total + i];
        w.LogMutation(page[i]);
      }
      total := total + count;
      if count < PAGE_SIZE {
        break;
      }
      offset := offset + count;
    }
    assert rows[..total] == rows;
  }

  method DumpNodeTable(b: Base, scope: Option<GroupId>, table: Table, w: WalWriter) returns (total: nat)
    modifies w
    ensures w.lines == old(w.lines) + NodeLines(b, table, Sorted(NodeKeys(b, scope, table)))
    ensures total == |NodeLines(b, table, Sorted(NodeKeys(b, scope, table)))|
  {
    total := DumpPages(NodeLines(b, table, Sorted(NodeKeys(b, scope, table))), w);
  }

  method DumpRelatesToEdges(b: Base, scope: Option<GroupId>, w: WalWriter) returns (total: nat)
    modifies w
    ensures w.lines == old(w.lines) + EdgePhase(b, scope)
    ensures total == |EdgePhase(b, scope)|
  {
    total := DumpPages(EdgePhase(b, scope), w);
  }

  method DumpNodesPhase(b: Base, scope: Option<GroupId>, tables: seq<Table>, w: WalWriter) returns (total: nat)
    modifies w
    ensures w.lines == old(w.lines) + NodePhase(b, scope, tables)
    ensures total == |NodePhase(b, scope, tables)|
  {
    ghost var before := w.lines;
    total := 0;
    for i := 0 to |tables|
      invariant w.lines == before + NodePhase(b, scope, tables[..i])
      invariant total == |NodePhase(b, scope, tables[..i])|
    {
      PhaseStep(b, scope, tables, i);
      ghost var soFar, lines := NodePhase(b, scope, tables[..i]),
                                NodeLines(b, tables[i], Sorted(NodeKeys(b, scope, tables[i])));
      var count := DumpNodeTable(b, scope, tables[i], w);
      Regroup(before, soFar, lines);
      total := total + count;
    }
    assert tables[..|tables|] == tables;
  }

  lemma Regroup(a: seq<Line>, b: seq<Line>, c: seq<Line>)
    ensures (a + b) + c == a + (b + c)
  {
  }

  lemma PhaseStep(b: Base, scope: Option<GroupId>, tables: seq<Table>, i: nat)
    requires i < |tables|
    ensures NodePhase(b, scope, tables[..i + 1])
         == NodePhase(b, scope, tables[..i]) + NodeLines(b, tables[i], Sorted(NodeKeys(b, scope, tables[i])))
  {
    assert tables[..i + 1][..i] == tables[..i];
  }

  /** Nodes first, then edges. */
  method DumpBoth(b: Base, scope: Option<GroupId>, tables: seq<Table>, w: WalWriter) returns (nodes: nat, edges: nat)
    modifies w
    ensures w.lines == old(w.lines) + DumpWith(b, scope, tables)
    ensures nodes == |NodePhase(b, scope, tables)| && edges == |EdgePhase(b, scope)|
  {
    ghost var before, first, second := w.lines, NodePhase(b, scope, tables), EdgePhase(b, scope);
    nodes := DumpNodesPhase(b, scope, tables, w);
    edges := DumpRelatesToEdges(b, scope, w);
    Regroup(before, first, second);
  }

  /** `run_dump`, two-hop links being the edges: the first `nodes` lines are the node lines, the other `edges`
    * lines the links. */
  method RunDump(b: Base, scope: Option<GroupId>, w: WalWriter) returns (nodes: nat, edges: nat)
    modifies w
    ensures w.lines == old(w.lines) + DumpOf(b, scope)
    ensures nodes + edges == |DumpOf(b, scope)|
    ensures forall i :: 0 <= i < |DumpOf(b, scope)| ==> (DumpOf(b, scope)[i].NodeLine? <==> i < nodes)
  {
    PhasesApart(b, scope, TABLES);
    nodes, edges := DumpBoth(b, scope, TABLES, w);
  }

  /** Every node of the scope has its line, no line is of anything else, and lines come in strict uuid
    * order, so that none is repeated. */
  lemma TableIsVisitedOnce(b: Base, scope: Option<GroupId>, table: Table)
    ensures var lines := NodeLines(b, table, Sorted(NodeKeys(b, scope, table)));
            && (forall u :: u in NodeKeys(b, scope, table) ==> NodeLineOf(b, Id(table, u)) in lines)
            && (forall i :: 0 <= i < |lines| ==> LineInScope(b, scope, table, lines[i]))
            && (forall i, j :: 0 <= i < j < |lines| ==> lines[i].id.uuid < lines[j].id.uuid)
  {
    var keys := Sorted(NodeKeys(b, scope, table));
    NodeLinesCount(b, table, keys);
    AllLinesThere(b, table, keys, NodeLines(b, table, keys));
    LinesInOrder(b, table, keys, NodeLines(b, table, keys));
    forall i | 0 <= i < |keys|
      ensures LineInScope(b, scope, table, NodeLines(b, table, keys)[i])
    {
      assert keys[i] in keys;
    }
  }

  /** The line is that of a node of the table and the scope, as stored. */
  predicate LineInScope(b: Base, scope: Option<GroupId>, table: Table, line: Line) {
    && line.NodeLine? && line.id.table == table && line.id in b.nodes
    && InScope(scope, b.nodes[line.id].columns.group)
    && line.columns == Written(table, b.nodes[line.id].columns)
  }

  lemma LinesInOrder(b: Base, table: Table, keys: seq<Uuid>, lines: seq<Line>)
    requires forall u :: u in keys ==> Id(table, u) in b.nodes
    requires |lines| == |keys| && forall i :: 0 <= i < |keys| ==> lines[i] == NodeLineOf(b, Id(table, keys[i]))
    requires forall i, j :: 0 <= i < j < |keys| ==> keys[i] < keys[j]
    ensures forall i :: 0 <= i < |lines| ==> lines[i].NodeLine? && lines[i].id.table == table
    ensures forall i, j :: 0 <= i < j < |lines| ==> lines[i].id.uuid < lines[j].id.uuid
  {
    forall i | 0 <= i < |lines|
      ensures lines[i].NodeLine? && lines[i].id == Id(table, keys[i])
    {
    }
  }

  lemma AllLinesThere(b: Base, table: Table, keys: seq<Uuid>, lines: seq<Line>)
    requires forall u :: u in keys ==> Id(table, u) in b.nodes
    requires |lines| == |keys| && forall i :: 0 <= i < |keys| ==> lines[i] == NodeLineOf(b, Id(table, keys[i]))
    ensures forall u :: u in keys ==> NodeLineOf(b, Id(table, u)) in lines
  {
    forall u | u in keys
      ensures NodeLineOf(b, Id(table, u)) in lines
    {
      var i :| 0 <= i < |keys| && keys[i] == u;
      assert lines[i] == NodeLineOf(b, Id(table, u));
    }
  }

  lemma {:induction false} NodeLinesCount(b: Base, table: Table, keys: seq<Uuid>)
    requires forall u :: u in keys ==> Id(table, u) in b.nodes
    ensures |NodeLines(b, table, keys)| == |keys|
    ensures forall i :: 0 <= i < |keys| ==> NodeLines(b, table, keys)[i] == NodeLineOf(b, Id(table, keys[i]))
  {
    if keys != [] {
      NodeLinesCount(b, table, keys[..|keys| - 1]);
    }
  }

  lemma {:induction false} LinkLinesCount(b: Base, keys: seq<Uuid>)
    requires forall rn :: rn in keys ==> Complete(b, rn)
    ensures |LinkLines(b, keys)| == |keys|
    ensures forall i :: 0 <= i < |keys| ==> LinkLines(b, keys)[i] == LinkLineOf(b, keys[i])
  {
    if keys != [] {
      LinkLinesCount(b, keys[..|keys| - 1]);
    }
  }

  /** No edge line comes before a node line. */
  lemma NodesBeforeEdges(b: Base, scope: Option<GroupId>, i: nat, j: nat)
    requires i < |DumpOf(b, scope)| && j < |DumpOf(b, scope)|
    requires DumpOf(b, scope)[i].NodeLine? && DumpOf(b, scope)[j].LinkLine?
    ensures i < j
  {
    PhasesApart(b, scope, TABLES);
  }

  lemma PhasesApart(b: Base, scope: Option<GroupId>, tables: seq<Table>)
    ensures var lines := DumpWith(b, scope, tables);
            forall i :: 0 <= i < |lines| ==> (lines[i].NodeLine? <==> i < |NodePhase(b, scope, tables)|)
  {
    NodePhaseIsNodes(b, scope, tables);
    LinkLinesCount(b, Sorted(LinkKeys(b, scope)));
  }

  lemma {:induction false} NodePhaseIsNodes(b: Base, scope: Option<GroupId>, tables: seq<Table>)
    ensures forall i :: 0 <= i < |NodePhase(b, scope, tables)| ==> NodePhase(b, scope, tables)[i].NodeLine?
  {
    if tables != [] {
      var table := tables[|tables| - 1];
      NodePhaseIsNodes(b, scope, tables[..|tables| - 1]);
      NodeLinesCount(b, table, Sorted(NodeKeys(b, scope, table)));
    }
  }

  // Replay.

  /** The relational effect of one line: a node is merged and its columns set; a link is made only
    * when its three nodes are there. */
  function Apply(b: Base, line: Line): Base {
    match line
    case NodeLine(id, columns) =>
      b.(nodes := b.nodes[id := Row(columns, if id in b.nodes then b.nodes[id].lookupKey else None)])
    case LinkLine(s, rn, d) =>
      if Id(EntityNode, s) in b.nodes && Id(EdgeNode, rn) in b.nodes && Id(EntityNode, d) in b.nodes then
        b.(src := b.src[rn := s], dst := b.dst[rn := d])
      else b
  }

  function Replay(b: Base, lines: seq<Line>): Base {
    if lines == [] then b else Apply(Replay(b, lines[..|lines| - 1]), lines[|lines| - 1])
  }

  lemma {:induction false} ReplayInTwo(b: Base, one: seq<Line>, two: seq<Line>)
    ensures Replay(b, one + two) == Replay(Replay(b, one), two)
  {
    if two == [] {
      assert one + two == one;
    } else {
      var front := two[..|two| - 1];
      assert (one + two)[..|one + two| - 1] == one + front;
      ReplayInTwo(b, one, front);
    }
  }

  /** The nodes of the scope under some tables, as they come back. */
  function Restored(b: Base, scope: Option<GroupId>, tables: seq<Table>): map<Id, Row> {
    map id | id in b.nodes && id.table in tables && InScope(scope, b.nodes[id].columns.group) ::
      Row(Written(id.table, b.nodes[id].columns), None)
  }

  lemma {:induction false} ReplayOneTable(b: Base, table: Table, keys: seq<Uuid>, into: Base)
    requires forall u :: u in keys ==> Id(table, u) in b.nodes
    requires forall id :: id in into.nodes ==> id.table != table
    ensures var after := Replay(into, NodeLines(b, table, keys));
            && after.src == into.src && after.dst == into.dst
            && (forall id :: id in after.nodes <==> id in into.nodes || (id.table == table && id.uuid in keys))
            && (forall id :: id in into.nodes ==> after.nodes[id] == into.nodes[id])
            && (forall u :: u in keys ==>
                  after.nodes[Id(table, u)] == Row(Written(table, b.nodes[Id(table, u)].columns), None))
  {
    if keys != [] {
      var front, last := keys[..|keys| - 1], keys[|keys| - 1];
      assert keys == front + [last];
      ReplayOneTable(b, table, front, into);
      var lines := NodeLines(b, table, keys);
      assert lines[..|lines| - 1] == NodeLines(b, table, front);
    }
  }

  lemma {:induction false} ReplayNodes(b: Base, scope: Option<GroupId>, tables: seq<Table>)
    requires forall i, j :: 0 <= i < j < |tables| ==> tables[i] != tables[j]
    ensures Replay(EMPTY_BASE, NodePhase(b, scope, tables)) == Base(Restored(b, scope, tables), map[], map[])
  {
    if tables != [] {
      var front, table := tables[..|tables| - 1], tables[|tables| - 1];
      assert tables == front + [table];
      ReplayNodes(b, scope, front);
      var into, keys := Base(Restored(b, scope, front), map[], map[]), Sorted(NodeKeys(b, scope, table));
      ReplayInTwo(EMPTY_BASE, NodePhase(b, scope, front), NodeLines(b, table, keys));
      assert table !in front;
      ReplayOneTable(b, table, keys, into);
      TableJoins(b, scope, front, table, Replay(into, NodeLines(b, table, keys)));
    }
  }

  lemma TableJoins(b: Base, scope: Option<GroupId>, front: seq<Table>, table: Table, after: Base)
    requires table !in front
    requires var into, keys := Restored(b, scope, front), Sorted(NodeKeys(b, scope, table));
             && (forall id :: id in after.nodes <==> id in into || (id.table == table && id.uuid in keys))
             && (forall id :: id in into ==> after.nodes[id] == into[id])
             && (forall u :: u in keys ==>
                   after.nodes[Id(table, u)] == Row(Written(table, b.nodes[Id(table, u)].columns), None))
    ensures after.nodes == Restored(b, scope, front + [table])
  {
    var all := Restored(b, scope, front + [table]);
    forall id
      ensures id in after.nodes <==> id in all
      ensures id in all ==> after.nodes[id] == all[id]
    {
      if id.table == table {
        assert id == Id(table, id.uuid);
        assert id in all <==> id.uuid in NodeKeys(b, scope, table);
      }
    }
  }

  lemma TablesCoverAll(table: Table)
    ensures table in TABLES
  {
    assert TABLES[0] == EntityNode && TABLES[1] == EpisodicNode && TABLES[2] == EdgeNode
        && TABLES[3] == CommunityNode && TABLES[4] == SagaNode;
  }

  /** The link survives replay: its three nodes are there. */
  predicate Linkable(nodes: map<Id, Row>, b: Base, rn: Uuid)
    requires Complete(b, rn)
  {
    Id(EntityNode, b.src[rn]) in nodes && Id(EdgeNode, rn) in nodes && Id(EntityNode, b.dst[rn]) in nodes
  }

  predicate Comes(nodes: map<Id, Row>, b: Base, keys: seq<Uuid>, rn: Uuid) {
    rn in keys && Complete(b, rn) && Linkable(nodes, b, rn)
  }

  ghost predicate LinksCame(nodes: map<Id, Row>, b: Base, keys: seq<Uuid>, after: Base) {
    && (forall rn :: rn in after.src <==> Comes(nodes, b, keys, rn))
    && (forall rn :: rn in after.dst <==> Comes(nodes, b, keys, rn))
    && (forall rn :: Comes(nodes, b, keys, rn) ==> after.src[rn] == b.src[rn] && after.dst[rn] == b.dst[rn])
  }

  lemma {:induction false} ReplayLinks(b: Base, keys: seq<Uuid>, nodes: map<Id, Row>)
    requires forall rn :: rn in keys ==> Complete(b, rn)
    ensures var after := Replay(Base(nodes, map[], map[]), LinkLines(b, keys));
            after.nodes == nodes && LinksCame(nodes, b, keys, after)
  {
    if keys != [] {
      var front, last := keys[..|keys| - 1], keys[|keys| - 1];
      assert keys == front + [last];
      ReplayLinks(b, front, nodes);
      var lines := LinkLines(b, keys);
      assert lines[..|lines| - 1] == LinkLines(b, front);
      forall rn
        ensures Comes(nodes, b, keys, rn) <==> Comes(nodes, b, front, rn) || (rn == last && Linkable(nodes, b, last))
      {
      }
    }
  }

  ghost predicate AllTables(tables: seq<Table>) {
    && (forall table: Table :: table in tables)
    && (forall i, j :: 0 <= i < j < |tables| ==> tables[i] != tables[j])
  }

  lemma TablesAreAll()
    ensures AllTables(TABLES)
  {
    forall table: Table
      ensures table in TABLES
    {
      TablesCoverAll(table);
    }
  }

  /** The link has both its ends in the scope. */
  predicate InsideScope(b: Base, scope: Option<GroupId>, rn: Uuid) {
    && Complete(b, rn)
    && InScope(scope, b.nodes[Id(EdgeNode, rn)].columns.group)
    && InScope(scope, b.nodes[Id(EntityNode, b.src[rn])].columns.group)
    && InScope(scope, b.nodes[Id(EntityNode, b.dst[rn])].columns.group)
  }

  lemma LinkableIsInside(b: Base, scope: Option<GroupId>, tables: seq<Table>, rn: Uuid)
    requires AllTables(tables) && Complete(b, rn)
    ensures rn in LinkKeys(b, scope) && Linkable(Restored(b, scope, tables), b, rn) <==> InsideScope(b, scope, rn)
  {
  }

  lemma RestoresWith(b: Base, scope: Option<GroupId>, tables: seq<Table>)
    requires AllTables(tables)
    ensures var after := Replay(EMPTY_BASE, DumpWith(b, scope, tables));
            && after.nodes == Restored(b, scope, tables)
            && after.src == KeptEnds(b.src, b, scope)
            && after.dst == KeptEnds(b.dst, b, scope)
  {
    ReplayNodes(b, scope, tables);
    var keys, nodes := Sorted(LinkKeys(b, scope)), Restored(b, scope, tables);
    ReplayInTwo(EMPTY_BASE, NodePhase(b, scope, tables), EdgePhase(b, scope));
    ReplayLinks(b, keys, nodes);
    forall rn
      ensures Comes(nodes, b, keys, rn) <==> InsideScope(b, scope, rn)
    {
      ComesIffInside(b, scope, tables, rn);
    }
    LinksInside(b, scope, nodes, keys, Replay(Base(nodes, map[], map[]), LinkLines(b, keys)));
  }

  function KeptEnds(ends: map<Uuid, Uuid>, b: Base, scope: Option<GroupId>): map<Uuid, Uuid> {
    map rn | rn in ends && InsideScope(b, scope, rn) :: ends[rn]
  }

  lemma LinksInside(b: Base, scope: Option<GroupId>, nodes: map<Id, Row>, keys: seq<Uuid>, after: Base)
    requires LinksCame(nodes, b, keys, after)
    requires forall rn :: Comes(nodes, b, keys, rn) <==> InsideScope(b, scope, rn)
    ensures after.src == KeptEnds(b.src, b, scope) && after.dst == KeptEnds(b.dst, b, scope)
  {
    EndsKept(after.src, b.src, b, scope);
    EndsKept(after.dst, b.dst, b, scope);
  }

  lemma EndsKept(ends: map<Uuid, Uuid>, from: map<Uuid, Uuid>, b: Base, scope: Option<GroupId>)
    requires forall rn :: rn in ends <==> InsideScope(b, scope, rn)
    requires forall rn :: rn in ends ==> rn in from && ends[rn] == from[rn]
    ensures ends == KeptEnds(from, b, scope)
  {
  }

  lemma ComesIffInside(b: Base, scope: Option<GroupId>, tables: seq<Table>, rn: Uuid)
    requires AllTables(tables)
    ensures Comes(Restored(b, scope, tables), b, Sorted(LinkKeys(b, scope)), rn) <==> InsideScope(b, scope, rn)
  {
    if Complete(b, rn) {
      LinkableIsInside(b, scope, tables, rn);
    }
  }

  /** What a dump of any scope brings back into an empty database: exactly the scope's nodes, as
    * written, and exactly those of its complete links whose two ends are in the scope themselves. A
    * dump of one group therefore loses the group's cross-group links, and no other. */
  lemma ReplayRestores(b: Base, scope: Option<GroupId>)
    ensures var after := Replay(EMPTY_BASE, DumpOf(b, scope));
            && after.nodes == Restored(b, scope, TABLES)
            && after.src == KeptEnds(b.src, b, scope)
            && after.dst == KeptEnds(b.dst, b, scope)
  {
    TablesAreAll();
    RestoresWith(b, scope, TABLES);
  }

  /** Dumping a whole database, replaying into an empty one and dumping again gives the same lines:
    * every node line, and every complete two-hop link. */
  lemma DumpRoundTrips(b: Base)
    ensures DumpOf(Replay(EMPTY_BASE, DumpOf(b, None)), None) == DumpOf(b, None)
  {
    TablesAreAll();
    RoundTripsWith(b, TABLES);
  }

  lemma RoundTripsWith(b: Base, tables: seq<Table>)
    requires AllTables(tables)
    ensures DumpWith(Replay(EMPTY_BASE, DumpWith(b, None, tables)), None, tables) == DumpWith(b, None, tables)
  {
    var after := Replay(EMPTY_BASE, DumpWith(b, None, tables));
    RestoresWith(b, None, tables);
    SameNodePhase(b, after, tables, tables);
    SameLinkKeys(b, after, tables);
    SameLinks(b, after, Sorted(LinkKeys(b, None)));
  }

  lemma SameLinkKeys(b: Base, after: Base, tables: seq<Table>)
    requires AllTables(tables) && after.nodes == Restored(b, None, tables)
    requires after.src == KeptEnds(b.src, b, None)
    requires after.dst == KeptEnds(b.dst, b, None)
    ensures LinkKeys(after, None) == LinkKeys(b, None)
    ensures forall rn :: rn in LinkKeys(b, None) ==>
              Complete(b, rn) && Complete(after, rn) && after.src[rn] == b.src[rn] && after.dst[rn] == b.dst[rn]
  {
    forall rn
      ensures rn in LinkKeys(after, None) <==> rn in LinkKeys(b, None)
      ensures rn in LinkKeys(b, None) ==>
                Complete(b, rn) && Complete(after, rn) && after.src[rn] == b.src[rn] && after.dst[rn] == b.dst[rn]
    {
      assert Complete(b, rn) ==> InsideScope(b, None, rn);
      assert rn in LinkKeys(b, None) <==> Complete(b, rn);
    }
  }

  lemma {:induction false} SameNodePhase(b: Base, after: Base, all: seq<Table>, tables: seq<Table>)
    requires AllTables(all) && after.nodes == Restored(b, None, all)
    ensures NodePhase(after, None, tables) == NodePhase(b, None, tables)
  {
    if tables != [] {
      var table := tables[|tables| - 1];
      SameNodePhase(b, after, all, tables[..|tables| - 1]);
      assert table in all;
      SameKeys(b, after, all, table);
      SameLines(b, after, all, table, Sorted(NodeKeys(b, None, table)));
    }
  }

  lemma SameKeys(b: Base, after: Base, all: seq<Table>, table: Table)
    requires AllTables(all) && after.nodes == Restored(b, None, all)
    ensures NodeKeys(after, None, table) == NodeKeys(b, None, table)
    ensures forall u :: u in NodeKeys(b, None, table) ==> Id(table, u) in b.nodes && Id(table, u) in after.nodes
  {
    forall u
      ensures u in NodeKeys(after, None, table) <==> u in NodeKeys(b, None, table)
      ensures u in NodeKeys(b, None, table) ==> Id(table, u) in b.nodes && Id(table, u) in after.nodes
    {
      assert table in all;
      assert Id(table, u) in after.nodes <==> Id(table, u) in b.nodes;
    }
  }

  lemma {:induction false} SameLines(b: Base, after: Base, all: seq<Table>, table: Table, keys: seq<Uuid>)
    requires after.nodes == Restored(b, None, all)
    requires forall u :: u in keys ==> Id(table, u) in b.nodes && Id(table, u) in after.nodes
    ensures NodeLines(after, table, keys) == NodeLines(b, table, keys)
  {
    if keys != [] {
      SameLines(b, after, all, table, keys[..|keys| - 1]);
      WrittenIsStable(table, b.nodes[Id(table, keys[|keys| - 1])].columns);
    }
  }

  lemma {:induction false} SameLinks(b: Base, after: Base, keys: seq<Uuid>)
    requires forall rn :: rn in keys ==>
               Complete(b, rn) && Complete(after, rn) && after.src[rn] == b.src[rn] && after.dst[rn] == b.dst[rn]
    ensures LinkLines(after, keys) == LinkLines(b, keys)
  {
    if keys != [] {
      SameLinks(b, after, keys[..|keys| - 1]);
    }
  }

  function PlainRow(group: GroupId): Row {
    Row(Columns(group, 0, None, [], [], None, ""), None)
  }

  function CrossGroupBase(): Base {
    var here, there := PlainRow("G"), PlainRow("H");
    Base(map[Id(EntityNode, 1) := here, Id(EntityNode, 2) := there, Id(EdgeNode, 5) := here], map[5 := 1], map[5 := 2])
  }

  lemma CrossGroupLinkIsDumped()
    ensures 5 in LinkKeys(CrossGroupBase(), Some("G"))
    ensures !InsideScope(CrossGroupBase(), Some("G"), 5)
  {
    var b := CrossGroupBase();
    assert Complete(b, 5) && b.nodes[Id(EdgeNode, 5)].columns.group == "G";
    assert b.nodes[Id(EntityNode, b.dst[5])].columns.group == "H";
  }

  lemma LostWhenOutside(b: Base, scope: Option<GroupId>, rn: Uuid)
    requires rn in LinkKeys(b, scope) && !InsideScope(b, scope, rn)
    ensures var after := Replay(EMPTY_BASE, DumpOf(b, scope)); rn !in after.src && rn !in after.dst
  {
    ReplayRestores(b, scope);
  }

  /** A link that is lost: edge node 5 and its source are in the group, its target is not. The group's dump has
    * the link's line, and its replay has no link. */
  lemma CrossGroupLinkIsLost()
    ensures var b := CrossGroupBase(); var after := Replay(EMPTY_BASE, DumpOf(b, Some("G")));
            5 in LinkKeys(b, Some("G")) && 5 !in after.src && 5 !in after.dst
  {
    CrossGroupLinkIsDumped();
    LostWhenOutside(CrossGroupBase(), Some("G"), 5);
  }
}
