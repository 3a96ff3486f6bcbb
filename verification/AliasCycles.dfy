/** Alias cycles in `same_as` corrections: the last-wins alias map, the depth-first search over it, and
  * the exact correspondence between what is reported and the cycles there are. */
module AliasCycles {
  import opened Common

  type Node = string

  datatype CorrectionEntry = CorrectionEntry(
    kind: string,
    canonical: Option<Node>,
    canonicalUuid: Option<Node>,
    aliases: Option<seq<Node>>)

  type AliasMap = map<Node, Node>

  const SAME_AS := "same_as"

  // The alias map.

  function CanonicalOf(e: CorrectionEntry): Node {
    if e.canonical.Some? then e.canonical.value
    else if e.canonicalUuid.Some? then e.canonicalUuid.value
    else ""
  }

  predicate Lists(lower: string -> string, e: CorrectionEntry, alias: Node) {
    lower(e.kind) == SAME_AS && e.aliases.Some? && alias in e.aliases.value
  }

  /** Entry `i` is the last that lists the alias. */
  predicate LastListing(lower: string -> string, entries: seq<CorrectionEntry>, alias: Node, i: nat) {
    && i < |entries| && Lists(lower, entries[i], alias)
    && forall j :: i < j < |entries| ==> !Lists(lower, entries[j], alias)
  }

  /** Each alias maps to the canonical of the last `same_as` entry that lists it; nothing else maps. */
  ghost predicate LastWins(lower: string -> string, entries: seq<CorrectionEntry>, graph: AliasMap) {
    && (forall alias :: alias in graph <==> exists i :: 0 <= i < |entries| && Lists(lower, entries[i], alias))
    && (forall alias, i: nat :: alias in graph && LastListing(lower, entries, alias, i) ==>
          graph[alias] == CanonicalOf(entries[i]))
  }

  method BuildAliasMap(lower: string -> string, entries: seq<CorrectionEntry>) returns (graph: AliasMap)
    ensures LastWins(lower, entries, graph)
  {
    graph := map[];
    for n := 0 to |entries|
      invariant LastWins(lower, entries[..n], graph)
    {
      var e := entries[n];
      ghost var before := graph;
      if lower(e.kind) == SAME_AS && e.aliases.Some? {
        graph := InsertAll(graph, e.aliases.value, CanonicalOf(e));
      }
      assert entries[..n + 1] == entries[..n] + [e];
      EntryAdded(lower, entries[..n], e, before, graph);
    }
    assert entries[..|entries|] == entries;
  }

  method InsertAll(graph: AliasMap, aliases: seq<Node>, canonical: Node) returns (graph': AliasMap)
    ensures forall a :: a in graph' <==> a in graph || a in aliases
    ensures forall a <- graph' :: graph'[a] == if a in aliases then canonical else graph[a]
  {
    graph' := graph;
    for i := 0 to |aliases|
      invariant forall a :: a in graph' <==> a in graph || a in aliases[..i]
      invariant forall a <- graph' :: graph'[a] == if a in aliases[..i] then canonical else graph[a]
    {
      graph' := graph'[aliases[i] := canonical];
      assert aliases[..i + 1] == aliases[..i] + [aliases[i]];
    }
    assert aliases[..|aliases|] == aliases;
  }

  lemma EntryAdded(lower: string -> string, entries: seq<CorrectionEntry>, e: CorrectionEntry,
                   graph: AliasMap, graph': AliasMap)
    requires LastWins(lower, entries, graph)
    requires forall a :: a in graph' <==> a in graph || Lists(lower, e, a)
    requires forall a <- graph' :: graph'[a] == if Lists(lower, e, a) then CanonicalOf(e) else graph[a]
    ensures LastWins(lower, entries + [e], graph')
  {
    var more := entries + [e];
    forall a
      ensures a in graph' <==> exists i :: 0 <= i < |more| && Lists(lower, more[i], a)
    {
      if a in graph {
        var i :| 0 <= i < |entries| && Lists(lower, entries[i], a);
        assert Lists(lower, more[i], a);
      } else if Lists(lower, e, a) {
        assert Lists(lower, more[|entries|], a);
      }
    }
    forall a, i: nat | a in graph' && LastListing(lower, more, a, i)
      ensures graph'[a] == CanonicalOf(more[i])
    {
      if i < |entries| {
        assert !Lists(lower, more[|entries|], a);
        assert forall j :: i < j < |entries| ==> more[j] == entries[j];
        assert LastListing(lower, entries, a, i);
      }
    }
  }

  /** What the map says, in the columns of the entries: an alias maps exactly when some `same_as` entry lists
    * it, to the canonical name of the last such entry, failing that to its canonical uuid, failing that to
    * the empty string. */
  lemma AliasMapIs(lower: string -> string, entries: seq<CorrectionEntry>, graph: AliasMap, alias: Node)
    requires LastWins(lower, entries, graph)
    ensures alias in graph
            <==> exists e :: e in entries && lower(e.kind) == "same_as" && e.aliases.Some? && alias in e.aliases.value
    ensures forall i: nat ::
              && i < |entries| && lower(entries[i].kind) == "same_as"
              && entries[i].aliases.Some? && alias in entries[i].aliases.value
              && (forall j :: i < j < |entries| && lower(entries[j].kind) == "same_as" && entries[j].aliases.Some? ==>
                    alias !in entries[j].aliases.value) ==>
                alias in graph
                && (entries[i].canonical.Some? ==> graph[alias] == entries[i].canonical.value)
                && (entries[i].canonical.None? && entries[i].canonicalUuid.Some? ==>
                      graph[alias] == entries[i].canonicalUuid.value)
                && (entries[i].canonical.None? && entries[i].canonicalUuid.None? ==> graph[alias] == "")
  {
    if e :| e in entries && lower(e.kind) == "same_as" && e.aliases.Some? && alias in e.aliases.value {
      var i :| 0 <= i < |entries| && entries[i] == e;
      assert Lists(lower, entries[i], alias);
    }
    forall i: nat
      ensures i < |entries| ==>
                (Lists(lower, entries[i], alias)
                 <==> lower(entries[i].kind) == "same_as" && entries[i].aliases.Some?
                      && alias in entries[i].aliases.value)
    {
    }
  }

  // Cycles.

  /** The position after `i` going round. */
  function Next(c: seq<Node>, i: nat): nat
    requires i < |c|
  {
    if i == |c| - 1 then 0 else i + 1
  }

  predicate Edge(graph: AliasMap, a: Node, b: Node) {
    a in graph && graph[a] == b
  }

  /** A simple cycle of the map, written from one of its nodes. */
  ghost predicate IsCycle(graph: AliasMap, c: seq<Node>) {
    && c != [] && Distinct(c)
    && forall i :: 0 <= i < |c| ==> Follows(graph, c, i)
  }

  predicate Follows(graph: AliasMap, c: seq<Node>, i: nat)
    requires i < |c|
  {
    Edge(graph, c[i], c[Next(c, i)])
  }

  ghost predicate OnCycle(graph: AliasMap, n: Node) {
    exists c :: IsCycle(graph, c) && n in c
  }

  predicate SameNodes(c: seq<Node>, d: seq<Node>) {
    (forall n :: n in c ==> n in d) && (forall n :: n in d ==> n in c)
  }

  predicate Disjoint(c: seq<Node>, d: seq<Node>) {
    forall n :: n in c ==> n !in d
  }

  /** No edge leaves the set. */
  ghost predicate Closed(graph: AliasMap, nodes: set<Node>) {
    forall n :: n in nodes && n in graph ==> graph[n] in nodes
  }

  /** A cycle with one node in a closed set lies in it entirely. */
  lemma CycleInside(graph: AliasMap, c: seq<Node>, nodes: set<Node>, i: nat)
    requires IsCycle(graph, c) && Closed(graph, nodes) && i < |c| && c[i] in nodes
    ensures forall n :: n in c ==> n in nodes
  {
    InsideFrom(graph, c, nodes, i, |c| - 1);
    assert Follows(graph, c, |c| - 1);
    forall j | 0 <= j < |c|
      ensures c[j] in nodes
    {
      InsideFrom(graph, c, nodes, 0, j);
    }
  }

  lemma {:induction false} InsideFrom(graph: AliasMap, c: seq<Node>, nodes: set<Node>, i: nat, j: nat)
    requires IsCycle(graph, c) && Closed(graph, nodes) && i <= j < |c| && c[i] in nodes
    ensures c[j] in nodes
    decreases j
  {
    if i < j {
      var k := j - 1;
      InsideFrom(graph, c, nodes, i, k);
      assert Follows(graph, c, k);
    }
  }

  function NodesOf(c: seq<Node>): set<Node> {
    set n | n in c
  }

  lemma CycleIsClosed(graph: AliasMap, c: seq<Node>)
    requires IsCycle(graph, c)
    ensures Closed(graph, NodesOf(c))
  {
    forall n | n in c
      ensures n in graph && graph[n] in c
    {
      var i :| 0 <= i < |c| && c[i] == n;
      assert Follows(graph, c, i);
    }
  }

  lemma CyclesThroughOneNodeAgree(graph: AliasMap, c: seq<Node>, d: seq<Node>, n: Node)
    requires IsCycle(graph, c) && IsCycle(graph, d) && n in c && n in d
    ensures SameNodes(c, d)
  {
    CycleIsClosed(graph, c);
    CycleIsClosed(graph, d);
    var i :| 0 <= i < |c| && c[i] == n;
    var j :| 0 <= j < |d| && d[j] == n;
    CycleInside(graph, c, NodesOf(d), i);
    CycleInside(graph, d, NodesOf(c), j);
  }

  // The search.

  datatype Mark = InPath | Done

  function Nodes(graph: AliasMap): set<Node> {
    graph.Keys + graph.Values
  }

  function DoneNodes(state: map<Node, Mark>): set<Node> {
    set n | n in state && state[n].Done?
  }

  /** The path that the search walks from the last node of `path`. */
  function Trail(graph: AliasMap, done: set<Node>, path: seq<Node>): (t: seq<Node>)
    requires path != []
    ensures path <= t
    decreases Nodes(graph) - NodesOf(path)
  {
    var last := path[|path| - 1];
    if last !in graph || graph[last] in path || graph[last] in done then path
    else
      FewerLeft(graph, path, graph[last]);
      Trail(graph, done, path + [graph[last]])
  }

  function Position(path: seq<Node>, n: Node): (i: nat)
    requires n in path
    ensures i < |path| && path[i] == n && forall j :: 0 <= j < i ==> path[j] != n
  {
    if path[0] == n then 0 else 1 + Position(path[1..], n)
  }

  /** The cycle that the end of a trail closes, if it closes one. */
  function Found(graph: AliasMap, trail: seq<Node>): seq<seq<Node>>
    requires trail != []
  {
    var last := trail[|trail| - 1];
    if last in graph && graph[last] in trail then [trail[Position(trail, graph[last])..]] else []
  }

  /** The marks of a search that has `path` in progress and `done` behind it. */
  ghost predicate Marks(state: map<Node, Mark>, path: seq<Node>, done: set<Node>) {
    && (forall n :: n in path <==> n in state && state[n].InPath?)
    && done == DoneNodes(state)
  }

  /** `dfs_detect`: marks the rest of its trail done and reports the cycle that the trail closes. */
  method DfsDetect(graph: AliasMap, node: Node, state: map<Node, Mark>, path: seq<Node>, cycles: seq<seq<Node>>)
    returns (state': map<Node, Mark>, cycles': seq<seq<Node>>)
    requires node !in state && Marks(state, path, DoneNodes(state))
    ensures var trail := Trail(graph, DoneNodes(state), path + [node]);
            && path + [node] <= trail
            && Marks(state', path, DoneNodes(state) + NodesOf(trail[|path|..]))
            && cycles' == cycles + Found(graph, trail)
    decreases Nodes(graph) - NodesOf(path + [node])
  {
    state', cycles' := state[node := InPath], cycles;
    var path' := path + [node];
    ghost var done := DoneNodes(state);
    ghost var trail := Trail(graph, done, path');
    PushMarks(state, path, node);
    assert path'[|path'| - 1] == node;
    if node in graph {
      var next := graph[node];
      if next in state' && state'[next].InPath? {
        assert next in path';
        cycles' := cycles' + [path'[Position(path', next)..]];
      } else if next !in state' {
        FewerLeft(graph, path', next);
        state', cycles' := DfsDetect(graph, next, state', path', cycles');
      }
    }
    PopTrail(state', path, node, done, trail);
    state' := state'[node := Done];
  }

  lemma PushMarks(state: map<Node, Mark>, path: seq<Node>, node: Node)
    requires node !in state && Marks(state, path, DoneNodes(state))
    ensures Marks(state[node := InPath], path + [node], DoneNodes(state))
  {
    forall n
      ensures n in path + [node] <==> n in path || n == node
    {
    }
    assert DoneNodes(state[node := InPath]) == DoneNodes(state);
  }

  lemma FewerLeft(graph: AliasMap, path: seq<Node>, next: Node)
    requires next in Nodes(graph) && next !in path
    ensures Nodes(graph) - NodesOf(path + [next]) < Nodes(graph) - NodesOf(path)
  {
    assert next in Nodes(graph) - NodesOf(path) && next in NodesOf(path + [next]);
  }

  lemma PopTrail(state: map<Node, Mark>, path: seq<Node>, node: Node, done: set<Node>, trail: seq<Node>)
    requires path + [node] <= trail && node !in path
    requires Marks(state, path + [node], done + NodesOf(trail[|path| + 1..]))
    ensures Marks(state[node := Done], path, done + NodesOf(trail[|path|..]))
  {
    assert trail[|path|..] == [node] + trail[|path| + 1..];
    assert NodesOf(trail[|path|..]) == NodesOf(trail[|path| + 1..]) + {node};
    assert done + NodesOf(trail[|path|..]) == done + NodesOf(trail[|path| + 1..]) + {node};
    PopMarks(state, path, node, done + NodesOf(trail[|path| + 1..]));
  }

  lemma PopMarks(state: map<Node, Mark>, path: seq<Node>, node: Node, done: set<Node>)
    requires Marks(state, path + [node], done) && node !in path
    ensures Marks(state[node := Done], path, done + {node})
  {
    var state' := state[node := Done];
    forall n
      ensures n in path <==> n in state' && state'[n].InPath?
    {
      assert n in path + [node] <==> n in path || n == node;
    }
    assert DoneNodes(state') == DoneNodes(state) + {node};
  }

  // What one search adds.

  /** A trail started outside `done`: distinct, new, and following the map. */
  ghost predicate GoodPath(graph: AliasMap, done: set<Node>, t: seq<Node>) {
    && t != [] && Distinct(t)
    && (forall n :: n in t ==> n !in done)
    && (forall i, j :: 0 <= i < j < |t| && j == i + 1 ==> Edge(graph, t[i], t[j]))
  }

  lemma {:induction false} TrailIsGood(graph: AliasMap, done: set<Node>, path: seq<Node>)
    requires GoodPath(graph, done, path)
    ensures var t := Trail(graph, done, path);
            && GoodPath(graph, done, t) && path <= t
            && var last := t[|t| - 1]; last !in graph || graph[last] in t || graph[last] in done
    decreases Nodes(graph) - NodesOf(path)
  {
    var last := path[|path| - 1];
    if !(last !in graph || graph[last] in path || graph[last] in done) {
      FewerLeft(graph, path, graph[last]);
      TrailIsGood(graph, done, path + [graph[last]]);
    }
  }

  lemma FoundIsCycle(graph: AliasMap, done: set<Node>, t: seq<Node>)
    requires GoodPath(graph, done, t)
    ensures forall c :: c in Found(graph, t) ==> IsCycle(graph, c) && forall n :: n in c ==> n in t
  {
    var last := t[|t| - 1];
    if last in graph && graph[last] in t {
      var k := Position(t, graph[last]);
      var c := t[k..];
      forall i | 0 <= i < |c|
        ensures Follows(graph, c, i)
      {
        assert c[i] == t[k + i];
        assert i < |c| - 1 ==> Edge(graph, t[k + i], t[k + i + 1]);
      }
    }
  }

  /** A node of the trail that is not on the cycle found is on no cycle. */
  lemma OffTheFoundCycle(graph: AliasMap, done: set<Node>, t: seq<Node>, i: nat)
    requires GoodPath(graph, done, t) && Closed(graph, done) && i < |t|
    requires var last := t[|t| - 1]; last !in graph || graph[last] in t || graph[last] in done
    requires forall c :: c in Found(graph, t) ==> t[i] !in c
    ensures !OnCycle(graph, t[i])
  {
    var rest := NodesOf(t[i + 1..]) + done;
    RestIsClosed(graph, done, t, i);
    NotAgain(t, i);
    forall c | IsCycle(graph, c)
      ensures t[i] !in c
    {
      if t[i] in c {
        var j :| 0 <= j < |c| && c[j] == t[i];
        assert Follows(graph, c, j);
        CycleInside(graph, c, rest, Next(c, j));
      }
    }
  }

  lemma NotAgain(t: seq<Node>, i: nat)
    requires Distinct(t) && i < |t|
    ensures t[i] !in t[i + 1..]
  {
  }

  lemma RestIsClosed(graph: AliasMap, done: set<Node>, t: seq<Node>, i: nat)
    requires GoodPath(graph, done, t) && Closed(graph, done) && i < |t|
    requires var last := t[|t| - 1]; last !in graph || graph[last] in t || graph[last] in done
    requires forall c :: c in Found(graph, t) ==> t[i] !in c
    ensures var rest := NodesOf(t[i + 1..]) + done;
            Closed(graph, rest) && (t[i] in graph ==> graph[t[i]] in rest)
  {
    var rest, last := NodesOf(t[i + 1..]) + done, t[|t| - 1];
    if last in graph && graph[last] in t {
      var k := Position(t, graph[last]);
      assert t[k..] in Found(graph, t);
      assert forall m :: k <= m < |t| ==> t[k..][m - k] == t[m] && t[m] in t[k..];
      assert i < k;
      assert t[i + 1..][k - (i + 1)] == graph[last];
      assert graph[last] in rest;
    }
    forall j | i <= j < |t| && t[j] in graph
      ensures graph[t[j]] in rest
    {
      if j < |t| - 1 {
        assert Edge(graph, t[j], t[j + 1]);
        assert t[i + 1..][j - i] == t[j + 1];
      }
    }
    forall n | n in rest && n in graph
      ensures graph[n] in rest
    {
      if n !in done {
        var j :| 0 <= j < |t[i + 1..]| && t[i + 1..][j] == n;
        assert t[j + i + 1] == n;
      }
    }
  }

  /** What has been reported once the nodes in `done` are behind: cycles inside `done`, pairwise
    * disjoint, covering every node of `done` that is on a cycle. */
  ghost predicate Reported(graph: AliasMap, done: set<Node>, cycles: seq<seq<Node>>) {
    && Closed(graph, done)
    && (forall i :: 0 <= i < |cycles| ==> IsCycle(graph, cycles[i]))
    && (forall i, n :: 0 <= i < |cycles| && n in cycles[i] ==> n in done)
    && (forall i, j :: 0 <= i < j < |cycles| ==> Disjoint(cycles[i], cycles[j]))
    && (forall n :: n in done && OnCycle(graph, n) ==> Covered(cycles, n))
  }

  ghost predicate Covered(cycles: seq<seq<Node>>, n: Node) {
    exists i :: 0 <= i < |cycles| && n in cycles[i]
  }

  lemma SearchReports(graph: AliasMap, done: set<Node>, cycles: seq<seq<Node>>, start: Node)
    requires Reported(graph, done, cycles) && start !in done
    ensures var t := Trail(graph, done, [start]);
            Reported(graph, done + NodesOf(t), cycles + Found(graph, t))
  {
    var t := Trail(graph, done, [start]);
    assert GoodPath(graph, done, [start]);
    TrailIsGood(graph, done, [start]);
    FoundIsCycle(graph, done, t);
    TrailIsClosed(graph, done, t);
    FoundJoins(graph, done, cycles, t);
    FoundCovers(graph, done, cycles, t);
  }

  lemma FoundJoins(graph: AliasMap, done: set<Node>, cycles: seq<seq<Node>>, t: seq<Node>)
    requires Reported(graph, done, cycles) && GoodPath(graph, done, t)
    requires forall c :: c in Found(graph, t) ==> IsCycle(graph, c) && forall n :: n in c ==> n in t
    ensures var done', cycles' := done + NodesOf(t), cycles + Found(graph, t);
            && (forall i :: 0 <= i < |cycles'| ==> IsCycle(graph, cycles'[i]))
            && (forall i, n :: 0 <= i < |cycles'| && n in cycles'[i] ==> n in done')
            && (forall i, j :: 0 <= i < j < |cycles'| ==> Disjoint(cycles'[i], cycles'[j]))
  {
    var found := Found(graph, t);
    if found == [] {
      assert cycles + found == cycles;
    } else {
      var c := found[0];
      assert c in found && cycles + found == cycles + [c];
    }
  }

  lemma FoundCovers(graph: AliasMap, done: set<Node>, cycles: seq<seq<Node>>, t: seq<Node>)
    requires Reported(graph, done, cycles) && GoodPath(graph, done, t)
    requires var last := t[|t| - 1]; last !in graph || graph[last] in t || graph[last] in done
    ensures forall n :: n in done + NodesOf(t) && OnCycle(graph, n) ==> Covered(cycles + Found(graph, t), n)
  {
    var found := Found(graph, t);
    var cycles' := cycles + found;
    forall n | n in done + NodesOf(t) && OnCycle(graph, n)
      ensures Covered(cycles', n)
    {
      if n in done {
        var i :| 0 <= i < |cycles| && n in cycles[i];
        assert n in cycles'[i];
      } else {
        var i :| 0 <= i < |t| && t[i] == n;
        if forall c :: c in found ==> n !in c {
          OffTheFoundCycle(graph, done, t, i);
        } else {
          assert cycles'[|cycles|] == found[0];
        }
      }
    }
  }

  lemma TrailIsClosed(graph: AliasMap, done: set<Node>, t: seq<Node>)
    requires GoodPath(graph, done, t) && Closed(graph, done)
    requires var last := t[|t| - 1]; last !in graph || graph[last] in t || graph[last] in done
    ensures Closed(graph, done + NodesOf(t))
  {
    forall n | n in done + NodesOf(t) && n in graph
      ensures graph[n] in done + NodesOf(t)
    {
      if n !in done {
        var i :| 0 <= i < |t| && t[i] == n;
        assert i < |t| - 1 ==> Edge(graph, t[i], t[i + 1]);
      }
    }
  }

  /** `detect_cycles`, which visits the aliases in whatever order the map yields them: its reports are
    * those of the last-wins map of the entries. */
  method DetectCycles(lower: string -> string, entries: seq<CorrectionEntry>) returns (cycles: seq<seq<Node>>)
    ensures forall graph :: LastWins(lower, entries, graph) ==> EachCycleOnce(graph, cycles)
  {
    var graph := BuildAliasMap(lower, entries);
    cycles := SearchAll(graph);
    forall other | LastWins(lower, entries, other)
      ensures EachCycleOnce(other, cycles)
    {
      LastWinsIsOneMap(lower, entries, graph, other);
    }
  }

  /** The search from every alias that an earlier search has not reached. */
  method SearchAll(graph: AliasMap) returns (cycles: seq<seq<Node>>)
    ensures EachCycleOnce(graph, cycles)
  {
    cycles := [];
    var state: map<Node, Mark> := map[];
    var todo := graph.Keys;
    while todo != {}
      invariant todo <= graph.Keys
      invariant Marks(state, [], DoneNodes(state))
      invariant graph.Keys - todo <= DoneNodes(state)
      invariant Reported(graph, DoneNodes(state), cycles)
      decreases todo
    {
      var start :| start in todo;
      todo := todo - {start};
      if start !in state {
        assert [] + [start] == [start];
        SearchReports(graph, DoneNodes(state), cycles, start);
        ghost var t := Trail(graph, DoneNodes(state), [start]);
        assert t[0..] == t && t[0] == start;
        state, cycles := DfsDetect(graph, start, state, [], cycles);
      }
    }
    ReportedIsEachOnce(graph, DoneNodes(state), cycles);
  }

  lemma LastWinsIsOneMap(lower: string -> string, entries: seq<CorrectionEntry>, graph: AliasMap, other: AliasMap)
    requires LastWins(lower, entries, graph) && LastWins(lower, entries, other)
    ensures graph == other
  {
    forall alias | alias in graph
      ensures alias in other && other[alias] == graph[alias]
    {
      var i: nat :| i < |entries| && Lists(lower, entries[i], alias);
      LastListingExists(lower, entries, alias, i);
      var k: nat :| LastListing(lower, entries, alias, k);
    }
    forall alias | alias in other
      ensures alias in graph
    {
      var i :| 0 <= i < |entries| && Lists(lower, entries[i], alias);
    }
  }

  lemma {:induction false} LastListingExists(lower: string -> string, entries: seq<CorrectionEntry>, alias: Node,
                                             i: nat)
    requires i < |entries| && Lists(lower, entries[i], alias)
    ensures exists k: nat :: LastListing(lower, entries, alias, k)
    decreases |entries| - i
  {
    if j: nat :| i < j < |entries| && Lists(lower, entries[j], alias) {
      LastListingExists(lower, entries, alias, j);
    } else {
      assert LastListing(lower, entries, alias, i);
    }
  }

  /** Every report is a cycle of the map, and every cycle of the map is one report, with exactly its
    * nodes, and no other. */
  ghost predicate EachCycleOnce(graph: AliasMap, cycles: seq<seq<Node>>) {
    && (forall i :: 0 <= i < |cycles| ==> IsCycle(graph, cycles[i]))
    && (forall c :: IsCycle(graph, c) ==> exists i :: 0 <= i < |cycles| && SameNodes(cycles[i], c))
    && (forall i, j, c ::
          (&& 0 <= i < |cycles| && 0 <= j < |cycles| && IsCycle(graph, c)
           && SameNodes(cycles[i], c) && SameNodes(cycles[j], c)) ==> i == j)
  }

  lemma ReportedIsEachOnce(graph: AliasMap, done: set<Node>, cycles: seq<seq<Node>>)
    requires Reported(graph, done, cycles) && graph.Keys <= done
    ensures EachCycleOnce(graph, cycles)
  {
    forall c | IsCycle(graph, c)
      ensures exists i :: 0 <= i < |cycles| && SameNodes(cycles[i], c)
    {
      assert Follows(graph, c, 0) && c[0] in c;
      assert OnCycle(graph, c[0]);
      var i :| 0 <= i < |cycles| && c[0] in cycles[i];
      CyclesThroughOneNodeAgree(graph, cycles[i], c, c[0]);
    }
    forall i, j, c | 0 <= i < |cycles| && 0 <= j < |cycles| && IsCycle(graph, c)
                     && SameNodes(cycles[i], c) && SameNodes(cycles[j], c)
      ensures i == j
    {
      assert c[0] in c;
      assert c[0] in cycles[i] && c[0] in cycles[j];
    }
  }

  /** Nothing is reported exactly when the map has no cycle. */
  lemma NoneIffAcyclic(graph: AliasMap, cycles: seq<seq<Node>>)
    requires EachCycleOnce(graph, cycles)
    ensures cycles == [] <==> forall c :: !IsCycle(graph, c)
  {
    if cycles != [] {
      assert IsCycle(graph, cycles[0]);
    }
  }
}
