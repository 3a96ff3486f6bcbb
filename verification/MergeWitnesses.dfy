/** Literal merges whose plan is wrong, one for each part of the condition in `MergePlans`: two aliases with an
  * edge to one neighbour, an edge from one alias to the other, and one alias with the same edge twice. */
module MergeWitnesses {
  import opened Common
  import opened PropertyGraph
  import opened Store
  import opened MergeEdges
  import opened MergeCounts
  import opened Corrections
  import opened MergeInvariants
  import opened MergePlans

  const ROW := Edge("e", "G", None, Pointers(None, None), "")

  const PERSON := Entity("n", "G", Some("A"), false, None, 0, None)

  /** 1 is the canonical, 2 and 3 are its aliases, 4 is a neighbour. */
  const PEOPLE: Entities := map[1 := PERSON, 2 := PERSON, 3 := PERSON, 4 := PERSON]

  function Into(alias: Uuid): Merge {
    Merge(1, alias, "G", 9)
  }

  lemma PeopleAreMergeable()
    ensures Mergeable(PEOPLE, [2, 3], 1, "G")
  {
  }

  lemma OneRow(g: Graph, m: Merge, e: FullEdge)
    ensures Rewritten(g, m, [e]) == Apply(g, m, e)
    ensures RealCounts(g, m, [e]) == DryCounts(g, m, [e]) == Count(ZERO, Decide(g, m, e))
  {
    assert [e][..0] == [];
  }

  lemma TwoVisits(g: Graph, v: Visit, w: Visit)
    ensures AfterVisits(g, [v]) == AfterVisit(g, v)
    ensures TotalPlanned(g, [v, w]) == Plus(DryCounts(g, v.m, v.rows), DryCounts(g, w.m, w.rows))
    ensures TotalCounts(g, [v, w]) == Plus(RealCounts(g, v.m, v.rows), RealCounts(AfterVisit(g, v), w.m, w.rows))
    ensures v.m.alias in g.entities && Listing(g, v.m.alias, v.rows, v.split)
            && w.m.alias in AfterVisit(g, v).entities && Listing(AfterVisit(g, v), w.m.alias, w.rows, w.split)
            ==> MergeRun(g, [v, w])
  {
    assert [v, w][..1] == [v] && [v][..0] == [];
    assert AfterVisits(g, []) == g && TotalCounts(g, []) == TotalPlanned(g, []) == ZERO;
    assert AfterVisits(g, [v]) == AfterVisit(g, v);
    assert TotalPlanned(g, [v]) == DryCounts(g, v.m, v.rows);
    assert TotalCounts(g, [v]) == RealCounts(g, v.m, v.rows);
    assert MergeRun(g, []);
  }

  lemma VisitsMakeACall(g: Graph, v: Visit, w: Visit, p: Visit)
    requires WellFormed(g) && Mergeable(g.entities, [2, 3], 1, "G")
    requires v.m == Into(2) && w.m == p.m == Into(3)
    requires Listing(g, 2, v.rows, v.split) && Listing(g, 3, p.rows, p.split)
    requires 2 in g.entities && 3 in AfterVisit(g, v).entities && Listing(AfterVisit(g, v), 3, w.rows, w.split)
    ensures Call(g, [2, 3], 1, "G", 9, [v, w], [v, p])
  {
    TwoVisits(g, v, w);
  }

  /** The rows of a side, when they are none or one. */
  lemma NoneListed(g: Graph, entity: Uuid, side: Side)
    requires forall rn: Uuid :: rn in g.edges && g.Complete(rn) ==> g.Hop(rn, side) != Some(entity)
    ensures SideListing(g, entity, side, [])
  {
  }

  lemma OneListed(g: Graph, entity: Uuid, side: Side, e: FullEdge)
    requires Snapshot(g, e) && g.Hop(e.uuid, side) == Some(entity)
    requires forall rn: Uuid :: rn in g.edges && g.Complete(rn) && g.Hop(rn, side) == Some(entity) ==> rn == e.uuid
    ensures SideListing(g, entity, side, [e])
  {
    assert [e][0].uuid == e.uuid;
  }

  lemma Outgoing(g: Graph, entity: Uuid, e: FullEdge)
    requires SideListing(g, entity, Src, [e]) && SideListing(g, entity, Dst, [])
    ensures Listing(g, entity, [e], 1)
  {
    assert [e][..1] == [e] && [e][1..] == [];
  }

  lemma Incoming(g: Graph, entity: Uuid, rows: seq<FullEdge>)
    requires SideListing(g, entity, Src, []) && SideListing(g, entity, Dst, rows)
    ensures Listing(g, entity, rows, 0)
  {
    assert rows[..0] == [] && rows[0..] == rows;
  }

  // Two aliases with an edge to the same neighbour.

  function Neighbours(): Graph {
    Graph(PEOPLE, map[10 := ROW, 11 := ROW], map[10 := 2, 11 := 3], map[10 := 4, 11 := 4],
          map[10 := (2, 4), 11 := (3, 4)], map[], 12)
  }

  const FIRST := FullEdge(10, 2, 4, ROW)
  const SECOND := FullEdge(11, 3, 4, ROW)

  function NeighbourVisits(): seq<Visit> {
    [Visit(Into(2), [FIRST], 1), Visit(Into(3), [SECOND], 1)]
  }

  lemma NeighboursListed()
    ensures var g := Neighbours();
            && WellFormed(g) && UniqueActive(g)
            && Listing(g, 2, [FIRST], 1) && Listing(g, 3, [SECOND], 1)
  {
    var g := Neighbours();
    OneListed(g, 2, Src, FIRST);
    NoneListed(g, 2, Dst);
    Outgoing(g, 2, FIRST);
    OneListed(g, 3, Src, SECOND);
    NoneListed(g, 3, Dst);
    Outgoing(g, 3, SECOND);
  }

  /** The graph once alias 2 is merged: row 12 states its edge for the canonical. */
  lemma NeighboursAfterFirst()
    ensures var g := AfterVisit(Neighbours(), NeighbourVisits()[0]);
            && 3 in g.entities && g.edges == map[10 := ROW.(invalidAt := Some(9)), 11 := ROW, 12 := ROW]
            && g.src == map[10 := 2, 11 := 3, 12 := 1] && g.dst == map[10 := 4, 11 := 4, 12 := 4]
  {
    OneRow(Neighbours(), Into(2), FIRST);
    assert !Neighbours().HasDirectedEdge(1, 4, "e", "G");
  }

  lemma NeighbourStillListed(g: Graph)
    requires g.edges == map[10 := ROW.(invalidAt := Some(9)), 11 := ROW, 12 := ROW]
    requires g.src == map[10 := 2, 11 := 3, 12 := 1] && g.dst == map[10 := 4, 11 := 4, 12 := 4]
    ensures Listing(g, 3, [SECOND], 1) && g.Links(12, 1, 4, "e", "G")
  {
    OneListed(g, 3, Src, SECOND);
    NoneListed(g, 3, Dst);
    Outgoing(g, 3, SECOND);
  }

  lemma NeighboursDecided()
    ensures var g := Neighbours();
            && Decide(g, Into(2), FIRST) == Rewrite && Decide(g, Into(3), SECOND) == Rewrite
  {
    assert !Neighbours().HasDirectedEdge(1, 4, "e", "G");
  }

  lemma NeighboursCall()
    ensures var g, visits := Neighbours(), NeighbourVisits();
            Call(g, [2, 3], 1, "G", 9, visits, visits) && UniqueActive(g)
  {
    NeighboursListed();
    NeighboursAfterFirst();
    NeighbourStillListed(AfterVisit(Neighbours(), NeighbourVisits()[0]));
    PeopleAreMergeable();
    VisitsMakeACall(Neighbours(), NeighbourVisits()[0], NeighbourVisits()[1], NeighbourVisits()[1]);
  }

  lemma NeighboursApart()
    ensures NoneJoins(Neighbours(), [2, 3], "G")
  {
  }

  lemma NeighboursPlanned()
    ensures var g := Neighbours();
            && DryCounts(g, Into(2), [FIRST]) == DryCounts(g, Into(3), [SECOND]) == Counts(1, 0, 0)
            && RealCounts(g, Into(2), [FIRST]) == Counts(1, 0, 0)
  {
    NeighboursDecided();
    OneRow(Neighbours(), Into(2), FIRST);
    OneRow(Neighbours(), Into(3), SECOND);
  }

  /** The second turn finds the edge that the first turn has restated. */
  lemma SecondIsADuplicate(g: Graph)
    requires g.Links(12, 1, 4, "e", "G")
    ensures RealCounts(g, Into(3), [SECOND]) == Counts(0, 1, 0)
  {
    OneRow(g, Into(3), SECOND);
    assert Decide(g, Into(3), SECOND) == Deduplicate;
  }

  /** Planned as two rewrites, run as a rewrite and a duplicate. */
  lemma SharedNeighbourIsMiscounted()
    ensures var g, visits := Neighbours(), NeighbourVisits();
            && Call(g, [2, 3], 1, "G", 9, visits, visits) && UniqueActive(g)
            && NoneJoins(g, [2, 3], "G")
            && TotalPlanned(g, visits) == Counts(2, 0, 0) && TotalCounts(g, visits) == Counts(1, 1, 0)
  {
    NeighboursCall();
    NeighboursApart();
    NeighboursPlanned();
    NeighboursAfterFirst();
    NeighbourStillListed(AfterVisit(Neighbours(), NeighbourVisits()[0]));
    SecondIsADuplicate(AfterVisit(Neighbours(), NeighbourVisits()[0]));
    TwoVisits(Neighbours(), NeighbourVisits()[0], NeighbourVisits()[1]);
  }

  // An edge from one alias to the other.

  function Couple(): Graph {
    Graph(PEOPLE, map[10 := ROW], map[10 := 2], map[10 := 3], map[10 := (2, 3)], map[], 11)
  }

  const LINK := FullEdge(10, 2, 3, ROW)
  const DEAD := FullEdge(10, 2, 3, ROW.(invalidAt := Some(9)))
  const MOVED := FullEdge(11, 1, 3, ROW)

  function CouplePlan(): seq<Visit> {
    [Visit(Into(2), [LINK], 1), Visit(Into(3), [LINK], 0)]
  }

  function CoupleRun(): seq<Visit> {
    [Visit(Into(2), [LINK], 1), Visit(Into(3), [DEAD, MOVED], 0)]
  }

  lemma CoupleListed()
    ensures var g := Couple();
            WellFormed(g) && UniqueActive(g) && Listing(g, 2, [LINK], 1) && Listing(g, 3, [LINK], 0)
  {
    var g := Couple();
    OneListed(g, 2, Src, LINK);
    NoneListed(g, 2, Dst);
    Outgoing(g, 2, LINK);
    NoneListed(g, 3, Src);
    OneListed(g, 3, Dst, LINK);
    Incoming(g, 3, [LINK]);
  }

  lemma CoupleAfterFirst()
    ensures var g := AfterVisit(Couple(), CoupleRun()[0]);
            && 3 in g.entities && g.edges == map[10 := DEAD.row, 11 := ROW]
            && g.src == map[10 := 2, 11 := 1] && g.dst == map[10 := 3, 11 := 3]
  {
    OneRow(Couple(), Into(2), LINK);
    assert !Couple().HasDirectedEdge(1, 3, "e", "G");
  }

  lemma TwoIncoming(g: Graph)
    requires g.edges == map[10 := DEAD.row, 11 := ROW]
    requires g.src == map[10 := 2, 11 := 1] && g.dst == map[10 := 3, 11 := 3]
    ensures Listing(g, 3, [DEAD, MOVED], 0)
  {
    NoneListed(g, 3, Src);
    assert [DEAD, MOVED][0].uuid == 10 && [DEAD, MOVED][1].uuid == 11;
    assert SideListing(g, 3, Dst, [DEAD, MOVED]);
    Incoming(g, 3, [DEAD, MOVED]);
  }

  /** The second turn skips the dead row and drops the one that the first turn inserted. */
  lemma SecondTurnCountsNothing(g: Graph)
    ensures RealCounts(g, Into(3), [DEAD, MOVED]) == ZERO
  {
    assert [DEAD, MOVED][..1] == [DEAD] && [DEAD][..0] == [];
    assert RealCounts(g, Into(3), [DEAD]) == ZERO;
    assert Decide(Rewritten(g, Into(3), [DEAD]), Into(3), MOVED) == DropSelfLoop;
  }

  lemma CoupleDecided()
    ensures Decide(Couple(), Into(2), LINK) == Rewrite && Decide(Couple(), Into(3), LINK) == Rewrite
  {
    assert !Couple().HasDirectedEdge(1, 3, "e", "G") && !Couple().HasDirectedEdge(2, 1, "e", "G");
  }

  lemma CoupleCall()
    ensures Call(Couple(), [2, 3], 1, "G", 9, CoupleRun(), CouplePlan()) && UniqueActive(Couple())
  {
    CoupleListed();
    CoupleAfterFirst();
    TwoIncoming(AfterVisit(Couple(), CoupleRun()[0]));
    PeopleAreMergeable();
    VisitsMakeACall(Couple(), CoupleRun()[0], CoupleRun()[1], CouplePlan()[1]);
  }

  lemma CoupleCompetesNot()
    ensures NoneCompete(Couple(), [2, 3], 1, "G", 9)
  {
  }

  lemma CoupleCounted()
    ensures var g, v, w := Couple(), CouplePlan()[0], CouplePlan()[1];
            && DryCounts(g, v.m, v.rows) == RealCounts(g, v.m, v.rows) == Counts(1, 0, 0)
            && DryCounts(g, w.m, w.rows) == Counts(1, 0, 0)
  {
    CoupleDecided();
    OneRow(Couple(), Into(2), LINK);
    OneRow(Couple(), Into(3), LINK);
  }

  /** Planned as two rewrites, run as one. */
  lemma EdgeBetweenAliasesIsMiscounted()
    ensures var g, plan, run := Couple(), CouplePlan(), CoupleRun();
            && Call(g, [2, 3], 1, "G", 9, run, plan) && UniqueActive(g)
            && NoneCompete(g, [2, 3], 1, "G", 9)
            && TotalPlanned(g, plan) == Counts(2, 0, 0) && TotalCounts(g, run) == Counts(1, 0, 0)
  {
    CoupleCall();
    CoupleCompetesNot();
    CoupleCounted();
    SecondTurnCountsNothing(AfterVisit(Couple(), CoupleRun()[0]));
    TwoVisits(Couple(), CouplePlan()[0], CouplePlan()[1]);
    TwoVisits(Couple(), CoupleRun()[0], CoupleRun()[1]);
  }

  // One alias with two edges that state the same fact.

  function Doubled(): Graph {
    Graph(PEOPLE, map[10 := ROW, 11 := ROW], map[10 := 2, 11 := 2], map[10 := 4, 11 := 4],
          map[10 := (2, 4), 11 := (2, 4)], map[], 12)
  }

  const TWIN := FullEdge(11, 2, 4, ROW)

  lemma DoubledListed()
    ensures WellFormed(Doubled()) && Listing(Doubled(), 2, [FIRST, TWIN], 2)
  {
    var g, rows := Doubled(), [FIRST, TWIN];
    assert rows[0].uuid == 10 && rows[1].uuid == 11;
    assert SideListing(g, 2, Src, rows);
    NoneListed(g, 2, Dst);
    assert rows[..2] == rows && rows[2..] == [];
  }

  lemma DoubledCounted(g: Graph)
    requires g == Doubled()
    ensures DryCounts(g, Into(2), [FIRST, TWIN]) == Counts(2, 0, 0)
    ensures RealCounts(g, Into(2), [FIRST, TWIN]) == Counts(1, 1, 0)
  {
    assert [FIRST, TWIN][..1] == [FIRST];
    assert !g.HasDirectedEdge(1, 4, "e", "G");
    OneRow(g, Into(2), FIRST);
    var g1 := Rewritten(g, Into(2), [FIRST]);
    assert g1.Links(12, 1, 4, "e", "G");
    assert Decide(g1, Into(2), TWIN) == Deduplicate && Decide(g, Into(2), TWIN) == Rewrite;
  }

  /** Planned as two rewrites, run as a rewrite and a duplicate. */
  lemma TwinsAreMiscounted()
    ensures var g, rows := Doubled(), [FIRST, TWIN];
            && Sound(g, Into(2)) && Listing(g, 2, rows, 2) && !TwinFree(g, Into(2))
            && DryCounts(g, Into(2), rows) == Counts(2, 0, 0) && RealCounts(g, Into(2), rows) == Counts(1, 1, 0)
  {
    DoubledListed();
    DoubledCounted(Doubled());
    DryRunIsExactIffTwinFree(Doubled(), Into(2), [FIRST, TWIN], 2);
  }
}
