/** What a dump says, in terms of the stored rows alone: which lines it has, in which order, what each says
  * of its node, and which nodes and links come back unchanged. Nothing here goes through the functions that
  * write the lines. */
module DumpLines {
  import opened Common
  import opened PropertyGraph
  import opened UuidOrder
  import D = Dump

  // What a node's line says.

  /** Each stored float that is finite, and zero for each that is not. */
  ghost predicate FloatsKept(v: D.Vector, v': D.Vector) {
    && |v'| == |v|
    && forall i :: 0 <= i < |v| ==> v'[i] == if v[i].NotFinite? then D.Finite(0.0) else v[i]
  }

  ghost predicate AllZero(n: nat, v: D.Vector) {
    |v| == n && forall i :: 0 <= i < n ==> v[i] == D.Finite(0.0)
  }

  ghost predicate Stamped(c: D.Columns, c': D.Columns) {
    c'.ingestedAt == if c.ingestedAt.None? then Some(c.createdAt) else c.ingestedAt
  }

  /** The line `c'` says what the node's columns `c` say, as far as its table has them: an entity's kind is
    * "Entity" when none is stored, its missing summary vector is zero and as long as its embedding, and the
    * ingest time of an entity, episode or edge is its creation time when none is stored. */
  ghost predicate SaysOf(table: D.Table, c: D.Columns, c': D.Columns) {
    && c'.group == c.group && c'.createdAt == c.createdAt && c'.rest == c.rest
    && match table
       case EntityNode =>
         && c'.kind == (if c.kind.None? then Some("Entity") else c.kind)
         && FloatsKept(c.embedding, c'.embedding)
         && (if c.summaryEmbedding == [] then AllZero(|c.embedding|, c'.summaryEmbedding)
             else FloatsKept(c.summaryEmbedding, c'.summaryEmbedding))
         && Stamped(c, c')
       case EpisodicNode =>
         && c'.kind.None? && FloatsKept(c.embedding, c'.embedding) && c'.summaryEmbedding == [] && Stamped(c, c')
       case EdgeNode =>
         && c'.kind.None? && FloatsKept(c.embedding, c'.embedding) && c'.summaryEmbedding == [] && Stamped(c, c')
       case CommunityNode =>
         && c'.kind.None? && FloatsKept(c.embedding, c'.embedding) && c'.summaryEmbedding == []
         && c'.ingestedAt.None?
       case SagaNode =>
         && c'.kind.None? && c'.embedding == [] && c'.summaryEmbedding == [] && c'.ingestedAt.None?
  }

  lemma VectorIs(v: D.Vector, v': D.Vector)
    ensures FloatsKept(v, v') <==> v' == D.WriteVector(v)
  {
    if FloatsKept(v, v') {
      assert v' == D.WriteVector(v);
    }
  }

  lemma ZerosAre(n: nat, v: D.Vector)
    ensures AllZero(n, v) <==> v == D.Zeros(n)
  {
    if AllZero(n, v) {
      assert v == D.Zeros(n);
    }
  }

  lemma LineSays(table: D.Table, c: D.Columns, c': D.Columns)
    ensures SaysOf(table, c, c') <==> c' == D.Written(table, c)
  {
    VectorIs(c.embedding, c'.embedding);
    VectorIs(c.summaryEmbedding, c'.summaryEmbedding);
    ZerosAre(|c.embedding|, c'.summaryEmbedding);
  }

  // Which lines there are.

  ghost predicate Due(b: D.Base, scope: Option<GroupId>, line: D.Line) {
    match line
    case NodeLine(id, columns) =>
      && id in b.nodes && (scope.Some? ==> b.nodes[id].columns.group == scope.value)
      && SaysOf(id.table, b.nodes[id].columns, columns)
    case LinkLine(s, rn, d) =>
      && D.Id(D.EdgeNode, rn) in b.nodes
      && (scope.Some? ==> b.nodes[D.Id(D.EdgeNode, rn)].columns.group == scope.value)
      && rn in b.src && b.src[rn] == s && D.Id(D.EntityNode, s) in b.nodes
      && rn in b.dst && b.dst[rn] == d && D.Id(D.EntityNode, d) in b.nodes
  }

  lemma InScopeIsDue(b: D.Base, scope: Option<GroupId>, table: D.Table, line: D.Line)
    ensures D.LineInScope(b, scope, table, line) <==> line.NodeLine? && line.id.table == table && Due(b, scope, line)
  {
    if line.NodeLine? && line.id in b.nodes {
      LineSays(line.id.table, b.nodes[line.id].columns, line.columns);
    }
  }

  lemma InScopeIsThere(b: D.Base, scope: Option<GroupId>, table: D.Table, line: D.Line)
    requires D.LineInScope(b, scope, table, line)
    ensures line in D.NodeLines(b, table, Sorted(D.NodeKeys(b, scope, table)))
  {
    D.TableIsVisitedOnce(b, scope, table);
    assert line.id.uuid in D.NodeKeys(b, scope, table);
    assert line == D.NodeLineOf(b, D.Id(table, line.id.uuid));
  }

  lemma NodesOfTable(b: D.Base, scope: Option<GroupId>, table: D.Table, line: D.Line)
    ensures line in D.NodeLines(b, table, Sorted(D.NodeKeys(b, scope, table)))
            <==> line.NodeLine? && line.id.table == table && Due(b, scope, line)
  {
    D.TableIsVisitedOnce(b, scope, table);
    InScopeIsDue(b, scope, table, line);
    if D.LineInScope(b, scope, table, line) {
      InScopeIsThere(b, scope, table, line);
    }
  }

  lemma {:induction false} NodesOfTables(b: D.Base, scope: Option<GroupId>, tables: seq<D.Table>, line: D.Line)
    ensures line in D.NodePhase(b, scope, tables)
            <==> line.NodeLine? && line.id.table in tables && Due(b, scope, line)
  {
    if tables != [] {
      var front, table := tables[..|tables| - 1], tables[|tables| - 1];
      assert tables == front + [table];
      NodesOfTables(b, scope, front, line);
      NodesOfTable(b, scope, table, line);
    }
  }

  lemma LinksOfDump(b: D.Base, scope: Option<GroupId>, line: D.Line)
    ensures line in D.EdgePhase(b, scope) <==> line.LinkLine? && Due(b, scope, line)
  {
    var keys := Sorted(D.LinkKeys(b, scope));
    var lines := D.LinkLines(b, keys);
    D.LinkLinesCount(b, keys);
    if line in lines {
      var i :| 0 <= i < |lines| && lines[i] == line;
      assert keys[i] in keys;
    }
    if line.LinkLine? && Due(b, scope, line) {
      assert line.edge in keys;
      var i :| 0 <= i < |keys| && keys[i] == line.edge;
      assert lines[i] == line;
    }
  }

  /** A dump has exactly the lines that are due: one for each node of the scope, saying what the node says,
    * and one for each edge node of the scope whose two hops reach entities. */
  lemma DumpHoldsExactly(b: D.Base, scope: Option<GroupId>, line: D.Line)
    ensures line in D.DumpOf(b, scope) <==> Due(b, scope, line)
  {
    NodesOfTables(b, scope, D.TABLES, line);
    LinksOfDump(b, scope, line);
    if line.NodeLine? {
      D.TablesCoverAll(line.id.table);
    }
  }

  // In which order.

  ghost function Rank(table: D.Table): nat {
    match table
    case EntityNode => 0
    case EpisodicNode => 1
    case EdgeNode => 2
    case CommunityNode => 3
    case SagaNode => 4
  }

  /** Nodes come before links; nodes by table and then by uuid, links by uuid. */
  ghost predicate Precedes(a: D.Line, z: D.Line) {
    match a
    case NodeLine(id, _) =>
      z.NodeLine? ==>
        Rank(id.table) < Rank(z.id.table) || (id.table == z.id.table && id.uuid < z.id.uuid)
    case LinkLine(_, rn, _) => z.LinkLine? && rn < z.edge
  }

  ghost predicate Ordered(lines: seq<D.Line>) {
    forall i, j :: 0 <= i < j < |lines| ==> Precedes(lines[i], lines[j])
  }

  lemma OrderedTogether(a: seq<D.Line>, z: seq<D.Line>)
    requires Ordered(a) && Ordered(z) && forall x, y :: x in a && y in z ==> Precedes(x, y)
    ensures Ordered(a + z)
  {
  }

  lemma TableInOrder(b: D.Base, scope: Option<GroupId>, table: D.Table)
    ensures Ordered(D.NodeLines(b, table, Sorted(D.NodeKeys(b, scope, table))))
  {
    D.TableIsVisitedOnce(b, scope, table);
  }

  lemma {:induction false} NodesInOrder(b: D.Base, scope: Option<GroupId>, tables: seq<D.Table>)
    requires forall i, j :: 0 <= i < j < |tables| ==> Rank(tables[i]) < Rank(tables[j])
    ensures Ordered(D.NodePhase(b, scope, tables))
  {
    if tables != [] {
      var front, table := tables[..|tables| - 1], tables[|tables| - 1];
      var a, z := D.NodePhase(b, scope, front), D.NodeLines(b, table, Sorted(D.NodeKeys(b, scope, table)));
      NodesInOrder(b, scope, front);
      TableInOrder(b, scope, table);
      forall x, y | x in a && y in z
        ensures Precedes(x, y)
      {
        NodesOfTables(b, scope, front, x);
        NodesOfTable(b, scope, table, y);
      }
      OrderedTogether(a, z);
    }
  }

  /** The lines come in one strict order, so that no line is repeated; with `DumpHoldsExactly` that leaves no
    * other dump possible. */
  lemma DumpIsOrdered(b: D.Base, scope: Option<GroupId>)
    ensures Ordered(D.DumpOf(b, scope))
  {
    var a, z, keys := D.NodePhase(b, scope, D.TABLES), D.EdgePhase(b, scope), Sorted(D.LinkKeys(b, scope));
    NodesInOrder(b, scope, D.TABLES);
    D.LinkLinesCount(b, keys);
    forall x, y | x in a && y in z
      ensures Precedes(x, y)
    {
      NodesOfTables(b, scope, D.TABLES, x);
      LinksOfDump(b, scope, y);
    }
    OrderedTogether(a, z);
  }

  // What comes back.

  ghost predicate AllFinite(v: D.Vector) {
    forall i :: 0 <= i < |v| ==> v[i].Finite?
  }

  /** Every column that the table has is stored, none that it lacks is, and every float is finite. An entity
    * with an empty embedding may lack its summary vector. */
  ghost predicate FullyStored(table: D.Table, c: D.Columns) {
    && AllFinite(c.embedding) && AllFinite(c.summaryEmbedding)
    && (c.kind.Some? <==> table.EntityNode?)
    && (c.summaryEmbedding != [] ==> table.EntityNode?)
    && (table.EntityNode? && c.embedding != [] ==> c.summaryEmbedding != [])
    && (c.embedding != [] ==> !table.SagaNode?)
    && (c.ingestedAt.Some? <==> table.EntityNode? || table.EpisodicNode? || table.EdgeNode?)
  }

  lemma KeptIffFinite(v: D.Vector)
    ensures FloatsKept(v, v) <==> AllFinite(v)
  {
    if FloatsKept(v, v) {
      forall i | 0 <= i < |v|
        ensures v[i].Finite?
      {
      }
    }
  }

  lemma SaysItselfIff(table: D.Table, c: D.Columns)
    ensures SaysOf(table, c, c) <==> FullyStored(table, c)
  {
    KeptIffFinite(c.embedding);
    KeptIffFinite(c.summaryEmbedding);
  }

  ghost predicate NodeInScope(b: D.Base, scope: Option<GroupId>, id: D.Id) {
    id in b.nodes && (scope.Some? ==> b.nodes[id].columns.group == scope.value)
  }

  /** Replaying a dump into an empty database brings back exactly the nodes of the scope, each saying what its
    * stored row says and without its derived key; a row comes back as it was stored if and only if it is
    * fully stored. */
  lemma ReplayRestoresRows(b: D.Base, scope: Option<GroupId>, id: D.Id)
    ensures var after := D.Replay(D.EMPTY_BASE, D.DumpOf(b, scope));
            && (id in after.nodes <==> NodeInScope(b, scope, id))
            && (id in after.nodes ==>
                  && after.nodes[id].lookupKey.None?
                  && SaysOf(id.table, b.nodes[id].columns, after.nodes[id].columns)
                  && (after.nodes[id].columns == b.nodes[id].columns
                      <==> FullyStored(id.table, b.nodes[id].columns)))
  {
    var after := D.Replay(D.EMPTY_BASE, D.DumpOf(b, scope));
    D.ReplayRestores(b, scope);
    D.TablesCoverAll(id.table);
    if id in after.nodes {
      var c := b.nodes[id].columns;
      LineSays(id.table, c, after.nodes[id].columns);
      LineSays(id.table, c, c);
      SaysItselfIff(id.table, c);
    }
  }

  /** And exactly the links whose edge node and both ends are in the scope, between the same ends. */
  lemma ReplayRestoresLinks(b: D.Base, scope: Option<GroupId>, rn: Uuid)
    ensures var after := D.Replay(D.EMPTY_BASE, D.DumpOf(b, scope));
            && (rn in after.src <==> rn in after.dst)
            && (rn in after.src
                <==> && rn in b.src && rn in b.dst && NodeInScope(b, scope, D.Id(D.EdgeNode, rn))
                     && NodeInScope(b, scope, D.Id(D.EntityNode, b.src[rn]))
                     && NodeInScope(b, scope, D.Id(D.EntityNode, b.dst[rn])))
            && (rn in after.src && rn in after.dst ==> after.src[rn] == b.src[rn] && after.dst[rn] == b.dst[rn])
  {
    D.ReplayRestores(b, scope);
  }
}
