/** Literal graphs on which a re-binding property fails: a wrong cache, a second pass that is not silent, a
  * fact that a pass loses, a healed row that stays hidden, and a purge that the gate does not notice. The exact
  * conditions are in `RebindInvariants`, `RebindSilence`, `RebindFacts`, `NameLookup` and `RebindGateExact`. */
module RebindWitnesses {
  import opened Common
  import opened PropertyGraph
  import opened NameLookup
  import opened PointerResolution
  import opened Rebind
  import opened RebindInvariants
  import opened RebindGate
  import opened RebindRuns

  /** Names as they are. */
  const PLAIN: Folding := Folding((s: string) => s, (s: string) => s, (s: string) => s, (s: string) => s)

  const PASS := Pass("G", false, 9)

  function Keyed(name: Name, kind: Kind): string {
    LookupKey(PLAIN, "G", kind, name)
  }

  /** A live row of the foreign group, and the local row that the edges start from. */
  function Target(name: Name, kind: Kind, at: Timestamp, key: Option<string>): Entity {
    Entity(name, "G", Some(kind), false, None, at, key)
  }

  const SOURCE := Entity("s", "H", None, false, None, 0, None)

  function PointingEdge(p: Pointer): Edge {
    Edge("e", "H", None, Pointers(None, Some(p)), "")
  }

  lemma KeysDiffer(name: Name, kind: Kind, name': Name, kind': Kind)
    requires SeparatorFree(kind) && SeparatorFree(kind') && (name != name' || kind != kind')
    ensures Keyed(name, kind) != Keyed(name', kind')
  {
    SameGroupKeys(PLAIN, "G", kind, name, kind', name');
  }

  /** A name whose key exactly one row carries resolves to that row, and nothing is healed. */
  lemma FoundByKey(ents: Entities, name: Name, kind: Kind, u: Uuid)
    requires KeyedRows(ents, Keyed(name, kind)) == {u}
    requires Matches(PLAIN, ents[u], "G", kind, name) && !ents[u].merged
    requires ActiveNamesakes(PLAIN, ents, "G", kind, name) == {u}
    ensures ResolveEndpoint(PLAIN, ents, "G", name, Some(kind)) == Resolution(Bound, Some(u))
    ensures LookupWrites(PLAIN, ents, "G", name, Some(kind)) == ents
  {
    assert VerifiedProbe(PLAIN, ents, "G", kind, name) == Some(u);
    assert NamedWinner(PLAIN, ents, "G", name, Some(kind)) == Winner(u);
  }

  /** The pointer is looked up, and its name now resolves to `u`. */
  ghost predicate Repoints(g: Graph, rn: Uuid, p: Pointer, u: Uuid) {
    && g.Active(rn) && g.edges[rn].pointers == Pointers(None, Some(p))
    && Checks(PASS, g.Position("G"), Some(p))
    && ResolveEndpoint(PLAIN, g.entities, "G", p.name, p.kind).uuid == Some(u)
    && LookupWrites(PLAIN, g.entities, "G", p.name, p.kind) == g.entities
  }

  /** An edge whose target end alone points into the group, and whose lookup heals nothing. */
  lemma TargetOnly(g: Graph, rn: Uuid, p: Pointer, u: Uuid)
    requires Repoints(g, rn, p, u)
    ensures Prospect(PLAIN, g, PASS, rn, Src) == g.Hop(rn, Src) && Prospect(PLAIN, g, PASS, rn, Dst) == Some(u)
    ensures !Differs(PLAIN, g, PASS, rn, Src) && (Differs(PLAIN, g, PASS, rn, Dst) <==> p.resolved != Some(u))
    ensures CleanRow(PLAIN, g, "G", rn)
  {
    assert g.edges[rn].pointers.At(Src) == None && g.edges[rn].pointers.At(Dst) == Some(p);
  }

  /** If no active row states the new fact yet, the edge moves there. */
  lemma TargetMoves(g: Graph, rn: Uuid, p: Pointer, u: Uuid)
    requires WellFormed(g) && Repoints(g, rn, p, u)
    requires g.Hop(rn, Src).Some? ==>
               g.src[rn] != u && !exists q :: g.Links(q, g.src[rn], u, g.edges[rn].name, g.edges[rn].group)
    ensures var g' := Step(PLAIN, g, PASS, rn);
            && StepFrame(g, g', rn) && g'.Active(rn)
            && g'.Hop(rn, Src) == g.Hop(rn, Src) && g'.Hop(rn, Dst) == Some(u)
  {
    TargetOnly(g, rn, p, u);
    StepInvalidatesIff(PLAIN, g, PASS, rn);
    StepRebinds(PLAIN, g, PASS, rn);
    StepKeeps(PLAIN, g, PASS, rn);
  }

  /** If some active row does, and the cache says otherwise, the edge is dropped. */
  lemma TargetIsDropped(g: Graph, rn: Uuid, p: Pointer, u: Uuid, q: Uuid)
    requires WellFormed(g) && Repoints(g, rn, p, u) && p.resolved != Some(u)
    requires g.Hop(rn, Src).Some? && g.Links(q, g.src[rn], u, g.edges[rn].name, g.edges[rn].group)
    ensures Step(PLAIN, g, PASS, rn) == g.Invalidate(rn, PASS.ts)
  {
    TargetOnly(g, rn, p, u);
    StepInvalidatesIff(PLAIN, g, PASS, rn);
    CleanInvalidation(PLAIN, g, PASS, rn);
  }

  // A wrong cache over a right hop.

  function MismatchedPointer(): Pointer {
    Pointer("G", "n", Some("A"), None, None, Unbound)
  }

  /** Edge 3 joins 2 to 1, where its pointer resolves to, but its cache says unresolved. */
  function Mismatched(): Graph {
    Graph(map[1 := Target("n", "A", 0, Some(Keyed("n", "A"))), 2 := SOURCE],
          map[3 := PointingEdge(MismatchedPointer())],
          map[3 := 2], map[3 := 1], map[3 := (2, 1)], map["G" := 1], 4)
  }

  lemma MismatchedShape()
    ensures var g := Mismatched();
            && WellFormed(g) && UniqueActive(g) && Candidates(g, [3]) && g.ActiveEdges() == {3}
            && g.Links(3, 2, 1, "e", "H")
  {
  }

  lemma MismatchedResolves()
    ensures var ents := Mismatched().entities;
            && ResolveEndpoint(PLAIN, ents, "G", "n", Some("A")) == Resolution(Bound, Some(1))
            && LookupWrites(PLAIN, ents, "G", "n", Some("A")) == ents
  {
    var ents := Mismatched().entities;
    assert KeyedRows(ents, Keyed("n", "A")) == {1};
    assert ActiveNamesakes(PLAIN, ents, "G", "A", "n") == {1};
    FoundByKey(ents, "n", "A", 1);
  }

  lemma MismatchedEdgeIsLost()
    ensures var g := Mismatched();
            && WellFormed(g) && UniqueActive(g) && Candidates(g, [3])
            && ResolveEndpoint(PLAIN, g.entities, "G", "n", Some("A")) == Resolution(Bound, g.Hop(3, Dst))
            && g.ActiveEdges() == {3} && Steps(PLAIN, g, PASS, [3]).ActiveEdges() == {}
  {
    var g := Mismatched();
    MismatchedShape();
    MismatchedResolves();
    TargetIsDropped(g, 3, MismatchedPointer(), 1, 3);
    assert [3][..0] == [];
    assert Steps(PLAIN, g, PASS, [3]) == g.Invalidate(3, PASS.ts);
  }

  // A second pass that is not silent.

  /** Row 1, the oldest, was renamed but still carries the key of `n` as a B; rows 2 and 3, an A and a B
    * called `n`, carry none. Edge 5 points at `n` of any kind. */
  function StaleTable(): Entities {
    map[1 := Target("m", "B", 0, Some(Keyed("n", "B"))), 2 := Target("n", "A", 1, None),
        3 := Target("n", "B", 2, None), 4 := SOURCE]
  }

  function HealedTable(): Entities {
    map[1 := Target("m", "B", 0, Some(Keyed("n", "B"))), 2 := Target("n", "A", 1, Some(Keyed("n", "A"))),
        3 := Target("n", "B", 2, Some(Keyed("n", "B"))), 4 := SOURCE]
  }

  function AnyKindPointer(state: BindingState): Pointer {
    Pointer("G", "n", None, None, Some(1), state)
  }

  function Stale(ents: Entities, state: BindingState): Graph {
    Graph(ents, map[5 := PointingEdge(AnyKindPointer(state))], map[5 := 4], map[], map[], map["G" := 1], 6)
  }

  lemma KindsOfTables()
    ensures KindsOf(StaleTable()) == {"A", "B", DEFAULT_KIND} == KindsOf(HealedTable())
  {
    var s, h := StaleTable(), HealedTable();
    assert s[1].Kind() == s[3].Kind() == "B" && s[2].Kind() == "A" && s[4].Kind() == DEFAULT_KIND;
    assert h[1].Kind() == h[3].Kind() == "B" && h[2].Kind() == "A" && h[4].Kind() == DEFAULT_KIND;
  }

  lemma NothingProbed()
    ensures ProbedKinds(PLAIN, StaleTable(), "G", "n") == {}
  {
    var ents := StaleTable();
    KindsOfTables();
    KeysDiffer("n", "A", "n", "B");
    KeysDiffer("n", DEFAULT_KIND, "n", "B");
    assert KeyedRows(ents, Keyed("n", "A")) == {} == KeyedRows(ents, Keyed("n", DEFAULT_KIND));
    assert KeyedRows(ents, Keyed("n", "B")) == {1};
  }

  lemma BothScanned()
    ensures ScannedKinds(PLAIN, StaleTable(), "G", "n") == {"A", "B"}
  {
    var ents := StaleTable();
    KindsOfTables();
    assert 2 in MatchingRows(PLAIN, ents, "G", "A", "n") && 3 in MatchingRows(PLAIN, ents, "G", "B", "n");
    assert MatchingRows(PLAIN, ents, "G", DEFAULT_KIND, "n") == {};
  }

  lemma BothHealed()
    ensures HealAll(PLAIN, StaleTable(), "G", "n") == HealedTable()
  {
  }

  /** No probe hits a row that still matches, so the scan finds both kinds and heals both rows. */
  lemma AmbiguousAtFirst()
    ensures ResolveEndpoint(PLAIN, StaleTable(), "G", "n", None) == Resolution(Ambiguous, None)
    ensures LookupWrites(PLAIN, StaleTable(), "G", "n", None) == HealedTable()
  {
    NothingProbed();
    BothScanned();
    BothHealed();
    assert "A" in {"A"} && "B" !in {"A"};
    assert |{"A", "B"}| == 2;
    assert WinningKinds(PLAIN, StaleTable(), "G", "n") == {"A", "B"};
    assert NamedWinner(PLAIN, StaleTable(), "G", "n", None) == ManyKinds;
  }

  lemma OneProbed()
    ensures ProbedKinds(PLAIN, HealedTable(), "G", "n") == {"A"}
    ensures KeyedRows(HealedTable(), Keyed("n", "A")) == {2}
  {
    var ents := HealedTable();
    KindsOfTables();
    KeysDiffer("n", "A", "n", "B");
    KeysDiffer("n", DEFAULT_KIND, "n", "B");
    KeysDiffer("n", DEFAULT_KIND, "n", "A");
    assert KeyedRows(ents, Keyed("n", "A")) == {2} && KeyedRows(ents, Keyed("n", DEFAULT_KIND)) == {};
    RenamedIsFirst();
    assert First(ents, {2}) == Some(2);
  }

  lemma RenamedIsFirst()
    ensures VerifiedProbe(PLAIN, HealedTable(), "G", "B", "n") == None
  {
    var ents := HealedTable();
    KeysDiffer("n", "A", "n", "B");
    assert KeyedRows(ents, Keyed("n", "B")) == {1, 3};
    assert !Before(ents, 3, 1);
    assert Probe(PLAIN, ents, "G", "B", "n") == Some(1);
  }

  /** Now the probe for an A hits, and the one for a B still meets the renamed row first. */
  lemma BoundAfterHealing()
    ensures ResolveEndpoint(PLAIN, HealedTable(), "G", "n", None) == Resolution(Bound, Some(2))
    ensures LookupWrites(PLAIN, HealedTable(), "G", "n", None) == HealedTable()
  {
    var ents := HealedTable();
    OneProbed();
    assert WinningKinds(PLAIN, ents, "G", "n") == {"A"};
    assert TheKind({"A"}) == "A";
    assert NamedWinner(PLAIN, ents, "G", "n", None) == NamedWinner(PLAIN, ents, "G", "n", Some("A"));
    OneNamesake();
    FoundByKey(ents, "n", "A", 2);
  }

  lemma OneNamesake()
    ensures ActiveNamesakes(PLAIN, HealedTable(), "G", "A", "n") == {2}
  {
  }

  /** The first pass leaves the edge ambiguous; the second, with no change in between, binds it. */
  lemma SecondPassBinds()
    ensures var g := Stale(StaleTable(), Ambiguous);
            var g1 := Steps(PLAIN, g, PASS, [5]);
            var g2 := Steps(PLAIN, g1, PASS, [5]);
            && WellFormed(g) && CacheMatches(g, "G") && Candidates(g, [5]) && Candidates(g1, [5])
            && g1 == Stale(HealedTable(), Ambiguous)
            && g1.Hop(5, Dst) == None && g2.Hop(5, Dst) == Some(2)
  {
    var g, g1 := Stale(StaleTable(), Ambiguous), Stale(HealedTable(), Ambiguous);
    assert [5][..0] == [];
    StaleShape(StaleTable());
    StaleShape(HealedTable());
    AmbiguousAtFirst();
    FirstStepHeals(g, g1);
    assert Steps(PLAIN, g, PASS, [5]) == g1;
    BoundAfterHealing();
    SecondStepBinds(g1);
    assert Steps(PLAIN, g1, PASS, [5]) == Step(PLAIN, g1, PASS, 5);
  }

  lemma StaleShape(ents: Entities)
    requires 4 in ents
    ensures var g := Stale(ents, Ambiguous); WellFormed(g) && CacheMatches(g, "G") && Candidates(g, [5])
  {
  }

  lemma FirstStepHeals(g: Graph, g1: Graph)
    requires g == Stale(StaleTable(), Ambiguous) && g1 == Stale(HealedTable(), Ambiguous)
    requires ResolveEndpoint(PLAIN, StaleTable(), "G", "n", None) == Resolution(Ambiguous, None)
    requires LookupWrites(PLAIN, StaleTable(), "G", "n", None) == HealedTable()
    ensures Step(PLAIN, g, PASS, 5) == g1
  {
    var found := Phase1(PLAIN, g, PASS, 5);
    assert g.edges[5].pointers.At(Dst) == Some(AnyKindPointer(Ambiguous));
    assert found.g == g1 && found.src == None && found.dst == Some(Resolution(Ambiguous, None));
    NoNewsDst(g1, 5, None, found.dst, Some(1), PASS.ts);
  }

  lemma SecondStepBinds(g: Graph)
    requires g == Stale(HealedTable(), Ambiguous)
    requires ResolveEndpoint(PLAIN, HealedTable(), "G", "n", None) == Resolution(Bound, Some(2))
    requires LookupWrites(PLAIN, HealedTable(), "G", "n", None) == HealedTable()
    ensures Step(PLAIN, g, PASS, 5).Hop(5, Dst) == Some(2)
  {
    StaleShape(HealedTable());
    TargetOnly(g, 5, AnyKindPointer(Ambiguous), 2);
    TargetMoves(g, 5, AnyKindPointer(Ambiguous), 2);
  }

  // A fact that a pass loses.

  /** Edges 10 and 11 join 1 to 2 and 1 to 3, as `p` and `q` once were; the names have been swapped. */
  function Swapped(): Graph {
    Graph(map[1 := SOURCE, 2 := Target("q", "A", 0, Some(Keyed("q", "A"))),
              3 := Target("p", "A", 0, Some(Keyed("p", "A")))],
          map[10 := PointingEdge(Pointer("G", "p", Some("A"), Some(2), Some(0), Bound)),
              11 := PointingEdge(Pointer("G", "q", Some("A"), Some(3), Some(0), Bound))],
          map[10 := 1, 11 := 1], map[10 := 2, 11 := 3], map[10 := (1, 2), 11 := (1, 3)], map["G" := 1], 12)
  }

  lemma SwappedResolves()
    ensures var ents := Swapped().entities;
            && ResolveEndpoint(PLAIN, ents, "G", "p", Some("A")) == Resolution(Bound, Some(3))
            && ResolveEndpoint(PLAIN, ents, "G", "q", Some("A")) == Resolution(Bound, Some(2))
            && LookupWrites(PLAIN, ents, "G", "p", Some("A")) == ents
            && LookupWrites(PLAIN, ents, "G", "q", Some("A")) == ents
  {
    var ents := Swapped().entities;
    KeysDiffer("p", "A", "q", "A");
    assert KeyedRows(ents, Keyed("p", "A")) == {3} && KeyedRows(ents, Keyed("q", "A")) == {2};
    assert ActiveNamesakes(PLAIN, ents, "G", "A", "p") == {3} && ActiveNamesakes(PLAIN, ents, "G", "A", "q") == {2};
    FoundByKey(ents, "p", "A", 3);
    FoundByKey(ents, "q", "A", 2);
  }

  lemma SwappedShape()
    ensures var g := Swapped();
            && WellFormed(g) && UniqueActive(g) && CacheMatches(g, "G") && Candidates(g, [10, 11])
            && g.Links(10, 1, 2, "e", "H") && g.Links(11, 1, 3, "e", "H")
  {
  }

  /** Row 10 is dropped as a duplicate of row 11, which states the fact that row 10 asserts. */
  lemma FirstIsDropped()
    ensures var g := Swapped(); Step(PLAIN, g, PASS, 10) == g.Invalidate(10, PASS.ts)
  {
    SwappedResolves();
    SwappedShape();
    TargetIsDropped(Swapped(), 10, Pointer("G", "p", Some("A"), Some(2), Some(0), Bound), 3, 11);
  }

  /** Invalidating a row leaves every other pointer where it is. */
  lemma DroppedRepoints(g: Graph, rn: Uuid, q: Uuid, p: Pointer, u: Uuid)
    requires rn in g.edges && q != rn && Repoints(g, q, p, u)
    ensures Repoints(g.Invalidate(rn, PASS.ts), q, p, u)
  {
  }

  lemma SecondRepoints()
    ensures Repoints(Swapped(), 11, Pointer("G", "q", Some("A"), Some(3), Some(0), Bound), 2)
  {
    SwappedResolves();
  }

  lemma DroppedLinks()
    ensures var g := Swapped().Invalidate(10, PASS.ts);
            WellFormed(g) && g.edges.Keys == {10, 11} && !g.Active(10) && g.Links(11, 1, 3, "e", "H")
  {
    SwappedShape();
    InvalidatedKeeps(Swapped(), 10, PASS.ts);
  }

  /** Then row 11 moves to where row 10 was. */
  lemma SecondMoves(g: Graph, p: Pointer)
    requires WellFormed(g) && g.edges.Keys == {10, 11} && !g.Active(10) && g.Links(11, 1, 3, "e", "H")
    requires Repoints(g, 11, p, 2)
    ensures var g' := Step(PLAIN, g, PASS, 11);
            && g'.edges.Keys == {10, 11} && !g'.Active(10) && g'.Links(11, 1, 2, "e", "H")
  {
    HopsOf(g, 11);
    TargetMoves(g, 11, p, 2);
  }

  /** Both facts are stated before, and row 10 asserts `1 -> 3` by name when it is dropped; afterwards no
    * active edge states it. */
  lemma SwapLosesAFact()
    ensures var g := Swapped();
            var g' := Steps(PLAIN, g, PASS, [10, 11]);
            && WellFormed(g) && UniqueActive(g) && CacheMatches(g, "G") && Candidates(g, [10, 11])
            && g.HasDirectedEdge(1, 2, "e", "H") && g.HasDirectedEdge(1, 3, "e", "H")
            && ResolveEndpoint(PLAIN, g.entities, "G", "p", Some("A")) == Resolution(Bound, Some(3))
            && g'.HasDirectedEdge(1, 2, "e", "H") && !g'.HasDirectedEdge(1, 3, "e", "H")
            && g'.ActiveEdges() == {11}
  {
    SwappedResolves();
    var g, g1 := Swapped(), Swapped().Invalidate(10, PASS.ts);
    SwappedShape();
    FirstIsDropped();
    DroppedLinks();
    SecondRepoints();
    DroppedRepoints(g, 10, 11, Pointer("G", "q", Some("A"), Some(3), Some(0), Bound), 2);
    SecondMoves(g1, Pointer("G", "q", Some("A"), Some(3), Some(0), Bound));
    TwoSteps(g, g1);
    OnlyLink(Step(PLAIN, g1, PASS, 11));
  }

  lemma TwoSteps(g: Graph, g1: Graph)
    requires Step(PLAIN, g, PASS, 10) == g1
    ensures Steps(PLAIN, g, PASS, [10, 11]) == Step(PLAIN, g1, PASS, 11)
  {
    assert [10, 11][..1] == [10] && [10][..0] == [];
    assert Steps(PLAIN, g, PASS, [10]) == g1;
  }

  lemma OnlyLink(g: Graph)
    requires g.edges.Keys == {10, 11} && !g.Active(10) && g.Links(11, 1, 2, "e", "H")
    ensures g.ActiveEdges() == {11} && g.HasDirectedEdge(1, 2, "e", "H") && !g.HasDirectedEdge(1, 3, "e", "H")
  {
  }

  // A healed row that the index still does not find.

  /** Row 3 is what the lookup of `n` as a B heals, and the renamed row 1 stays before it under the key. */
  lemma HealedRowStaysHidden()
    ensures var ents := StaleTable();
            var ents' := LookupEffect(PLAIN, ents, "G", "B", "n");
            && LookupResult(PLAIN, ents, "G", "B", "n") == Some(3)
            && FreshKey(PLAIN, ents'[3]) && VerifiedProbe(PLAIN, ents', "G", "B", "n") != Some(3)
  {
    var ents := StaleTable();
    assert KeyedRows(ents, Keyed("n", "B")) == {1};
    assert MatchingRows(PLAIN, ents, "G", "B", "n") == {3};
    assert !Before(ents, 3, 1);
    HealedRowIsIndexed(PLAIN, ents, "G", "B", "n");
  }

  // A purge that the gate does not notice.

  /** Edge 3's target was deleted and the position did not move: the pointer is Bound to 1, which is gone. */
  function Purged(): Graph {
    Graph(map[2 := SOURCE], map[3 := PointingEdge(Pointer("G", "n", Some("A"), Some(1), Some(1), Bound))],
          map[3 := 2], map[], map[], map["G" := 1], 4)
  }

  lemma PurgedShape()
    ensures var g := Purged();
            && WellFormed(g) && Candidates(g, [3])
            && ResolveEndpoint(PLAIN, g.entities, "G", "n", Some("A")) == Resolution(Unbound, None)
  {
    var ents := Purged().entities;
    assert MatchingRows(PLAIN, ents, "G", "A", "n") == {} && KeyedRows(ents, Keyed("n", "A")) == {};
    assert NamedWinner(PLAIN, ents, "G", "n", Some("A")) == NoWinner;
  }

  /** The gated pass leaves the pointer Bound, the forced one finds it unbound. */
  lemma PurgeIsNotNoticed()
    ensures var g := Purged();
            && WellFormed(g) && Candidates(g, [3])
            && Steps(PLAIN, g, PASS, [3]) == g && Steps(PLAIN, g, Forced(PASS), [3]) != g
            && ResolveEndpoint(PLAIN, g.entities, "G", "n", Some("A")) == Resolution(Unbound, None)
  {
    var g := Purged();
    PurgedShape();
    assert [3][..0] == [];
    GatedSkips(g);
    ForcedUnbinds(g);
  }

  lemma GatedSkips(g: Graph)
    requires g == Purged()
    ensures Step(PLAIN, g, PASS, 3) == g
  {
    var found := Phase1(PLAIN, g, PASS, 3);
    assert found.src == None && found.dst == None;
  }

  lemma ForcedUnbinds(g: Graph)
    requires g == Purged() && WellFormed(g)
    requires ResolveEndpoint(PLAIN, g.entities, "G", "n", Some("A")) == Resolution(Unbound, None)
    ensures Step(PLAIN, g, Forced(PASS), 3) != g
  {
    var g' := Step(PLAIN, g, Forced(PASS), 3);
    StepRebinds(PLAIN, g, Forced(PASS), 3);
    if g'.Active(3) {
      assert TableFor(PLAIN, g, Forced(PASS), 3, Dst) == g.entities;
      assert SideRebound(PLAIN, g, Forced(PASS), 3, Dst, g.entities, g');
    }
  }
}
