/** Which facts a pass leaves stated, and which edges it invalidates, in terms of the graph that it starts
  * from. An edge that is invalidated as a duplicate relies on the row that stated its fact first; that row
  * may itself be a later candidate and move away. */
module RebindFacts {
  import opened Common
  import opened PropertyGraph
  import opened NameLookup
  import opened Rebind
  import opened RebindInvariants
  import opened RebindGate

  /** Row `rn` survives its turn in `turn` as an edge from `a` to `b`. */
  ghost predicate EndsAs(f: Folding, turn: Graph, pass: Pass, rn: Uuid, a: Uuid, b: Uuid) {
    && turn.Active(rn) && !Condemned(f, turn, pass, rn)
    && Prospect(f, turn, pass, rn, Src) == Some(a)
    && Prospect(f, turn, pass, rn, Dst) == Some(b)
  }

  lemma EndsAsItsTurn(f: Folding, turn: Graph, pass: Pass, rn: Uuid, a: Uuid, b: Uuid)
    requires WellFormed(turn) && turn.Active(rn)
    ensures Step(f, turn, pass, rn).Links(rn, a, b, turn.edges[rn].name, turn.edges[rn].group)
            <==> EndsAs(f, turn, pass, rn, a, b)
  {
    StepInvalidatesIff(f, turn, pass, rn);
    StepKeeps(f, turn, pass, rn);
    var g' := Step(f, turn, pass, rn);
    if g'.Active(rn) {
      StillActive(f, turn, pass, rn);
      FoundSides(f, turn, pass, rn);
    }
  }

  ghost predicate EndedAs(f: Folding, g: Graph, pass: Pass, order: seq<Uuid>, j: nat, a: Uuid, b: Uuid, name: Name,
                          group: GroupId)
    requires j < |order|
  {
    && order[j] in g.edges && g.edges[order[j]].name == name && g.edges[order[j]].group == group
    && EndsAs(f, Steps(f, g, pass, order[..j]), pass, order[j], a, b)
  }

  /** Before turn `i` a row that is not visited from then on states the fact, or a candidate visited from
    * then on ends as it. */
  ghost predicate StatedFrom(f: Folding, g: Graph, pass: Pass, order: seq<Uuid>, i: nat, a: Uuid, b: Uuid,
                             name: Name, group: GroupId)
    requires i <= |order|
  {
    || (exists q :: q !in order[i..] && Steps(f, g, pass, order[..i]).Links(q, a, b, name, group))
    || (exists j :: i <= j < |order| && EndedAs(f, g, pass, order, j, a, b, name, group))
  }

  lemma LinkAtEnd(f: Folding, g: Graph, pass: Pass, order: seq<Uuid>, j: nat, a: Uuid, b: Uuid, name: Name,
                  group: GroupId)
    requires WellFormed(g) && AllActive(g, order) && Distinct(order) && j < |order|
    ensures Steps(f, g, pass, order).Links(order[j], a, b, name, group)
            <==> EndedAs(f, g, pass, order, j, a, b, name, group)
  {
    assert g.Active(order[j]);
    TurnOf(f, g, pass, order, j);
    var turn := Steps(f, g, pass, order[..j]);
    EndsAsItsTurn(f, turn, pass, order[j], a, b);
    StepKeeps(f, turn, pass, order[j]);
    SameRowSameLinks(Step(f, turn, pass, order[j]), Steps(f, g, pass, order), order[j], a, b, name, group);
  }

  lemma SameRowSameLinks(g: Graph, g': Graph, rn: Uuid, a: Uuid, b: Uuid, name: Name, group: GroupId)
    requires SameRow(g, g', rn)
    ensures g'.Links(rn, a, b, name, group) <==> g.Links(rn, a, b, name, group)
  {
    assert g'.Hop(rn, Src) == g.Hop(rn, Src) && g'.Hop(rn, Dst) == g.Hop(rn, Dst);
  }

  lemma {:induction false} StepsSplit(f: Folding, g: Graph, pass: Pass, a: seq<Uuid>, b: seq<Uuid>)
    ensures Steps(f, g, pass, a + b) == Steps(f, Steps(f, g, pass, a), pass, b)
  {
    if b == [] {
      assert a + b == a;
    } else {
      var front, last := b[..|b| - 1], b[|b| - 1];
      assert (a + b)[..|a + b| - 1] == a + front;
      StepsSplit(f, g, pass, a, front);
    }
  }

  /** A row that is not visited from turn `i` on stays as it is then. */
  lemma UnvisitedStands(f: Folding, g: Graph, pass: Pass, order: seq<Uuid>, i: nat, q: Uuid)
    requires WellFormed(g) && i <= |order| && q in g.edges && q !in order[i..]
    ensures SameRow(Steps(f, g, pass, order[..i]), Steps(f, g, pass, order), q)
  {
    StepsKeep(f, g, pass, order[..i]);
    StepsSplit(f, g, pass, order[..i], order[i..]);
    assert order[..i] + order[i..] == order;
    StepsKeep(f, Steps(f, g, pass, order[..i]), pass, order[i..]);
  }

  /** The facts after a pass, as seen from any turn `i` of it - from its start, or from the turn at which a
    * candidate is condemned for repeating a fact: exactly those of the rows that are not visited from
    * then on, and those that the later candidates which survive resolve to. */
  lemma FactsAfterPass(f: Folding, g: Graph, pass: Pass, order: seq<Uuid>, i: nat, a: Uuid, b: Uuid, name: Name,
                       group: GroupId)
    requires WellFormed(g) && AllActive(g, order) && Distinct(order) && i <= |order|
    ensures Steps(f, g, pass, order).HasDirectedEdge(a, b, name, group)
            <==> StatedFrom(f, g, pass, order, i, a, b, name, group)
  {
    if Steps(f, g, pass, order).HasDirectedEdge(a, b, name, group) {
      var q :| q in Steps(f, g, pass, order).edges && Steps(f, g, pass, order).Links(q, a, b, name, group);
      StatedAtEnd(f, g, pass, order, i, q, a, b, name, group);
    }
    if q :| q !in order[i..] && Steps(f, g, pass, order[..i]).Links(q, a, b, name, group) {
      StepsKeep(f, g, pass, order[..i]);
      UnvisitedStands(f, g, pass, order, i, q);
      SameRowSameLinks(Steps(f, g, pass, order[..i]), Steps(f, g, pass, order), q, a, b, name, group);
    } else if j: nat :| i <= j < |order| && EndedAs(f, g, pass, order, j, a, b, name, group) {
      LinkAtEnd(f, g, pass, order, j, a, b, name, group);
    }
  }

  lemma StatedAtEnd(f: Folding, g: Graph, pass: Pass, order: seq<Uuid>, i: nat, q: Uuid, a: Uuid, b: Uuid,
                    name: Name, group: GroupId)
    requires WellFormed(g) && AllActive(g, order) && Distinct(order) && i <= |order|
    requires Steps(f, g, pass, order).Links(q, a, b, name, group)
    ensures StatedFrom(f, g, pass, order, i, a, b, name, group)
  {
    StepsKeep(f, g, pass, order);
    if q in order[i..] {
      var j := IndexFrom(order, i, q);
      LinkAtEnd(f, g, pass, order, j, a, b, name, group);
    } else {
      UnvisitedStands(f, g, pass, order, i, q);
      SameRowSameLinks(Steps(f, g, pass, order[..i]), Steps(f, g, pass, order), q, a, b, name, group);
    }
  }

  lemma IndexFrom(order: seq<Uuid>, i: nat, q: Uuid) returns (j: nat)
    requires i <= |order| && q in order[i..]
    ensures i <= j < |order| && order[j] == q
  {
    var k: nat :| k < |order[i..]| && order[i..][k] == q;
    j := i + k;
  }

  // In terms of the graph that the pass starts from.

  /** Some side is re-checked, and its answer is not the cached one. */
  predicate Moves(f: Folding, g: Graph, pass: Pass, rn: Uuid)
    requires rn in g.edges
  {
    Differs(f, g, pass, rn, Src) || Differs(f, g, pass, rn, Dst)
  }

  /** A pass over active rows, each once, whose lookups heal nothing and whose caches match the hops. */
  ghost predicate Plain(f: Folding, g: Graph, pass: Pass, order: seq<Uuid>) {
    && WellFormed(g) && Clean(f, g, pass.source) && CacheMatches(g, pass.source)
    && AllActive(g, order) && Distinct(order)
  }

  /** The row moves to that fact, which is no self-loop. */
  ghost predicate Lands(f: Folding, g: Graph, pass: Pass, rn: Uuid, a: Uuid, b: Uuid, name: Name, group: GroupId) {
    && rn in g.edges && Moves(f, g, pass, rn)
    && g.edges[rn].name == name && g.edges[rn].group == group
    && Prospect(f, g, pass, rn, Src) == Some(a) && Prospect(f, g, pass, rn, Dst) == Some(b) && a != b
  }

  /** The row states that fact, and moves away from it. */
  ghost predicate Leaves(f: Folding, g: Graph, pass: Pass, rn: Uuid, a: Uuid, b: Uuid, name: Name, group: GroupId) {
    g.Links(rn, a, b, name, group) && Moves(f, g, pass, rn)
  }

  ghost predicate LandsLast(f: Folding, g: Graph, pass: Pass, order: seq<Uuid>, j: nat, a: Uuid, b: Uuid, name: Name,
                            group: GroupId)
    requires j < |order|
  {
    && Lands(f, g, pass, order[j], a, b, name, group)
    && forall k :: j < k < |order| ==> !Leaves(f, g, pass, order[k], a, b, name, group)
  }

  /** A row states the fact and is not a candidate that moves away, or a candidate moves to it after the last
    * one that moves away. */
  ghost predicate StatedAfter(f: Folding, g: Graph, pass: Pass, order: seq<Uuid>, a: Uuid, b: Uuid, name: Name,
                              group: GroupId)
  {
    || (exists q :: g.Links(q, a, b, name, group) && !(q in order && Moves(f, g, pass, q)))
    || (exists j :: 0 <= j < |order| && LandsLast(f, g, pass, order, j, a, b, name, group))
  }

  /** Until its turn nothing about a candidate changes, nor what its names resolve to. */
  lemma SameAtItsTurn(f: Folding, g: Graph, pass: Pass, order: seq<Uuid>, j: nat)
    requires Plain(f, g, pass, order) && j < |order|
    ensures var turn := Steps(f, g, pass, order[..j]);
            && WellFormed(turn) && turn.Active(order[j]) && turn.entities == g.entities
            && SameRow(g, turn, order[j])
  {
    assert order[..j] + order[j..] == order && order[j..][0] == order[j];
    StepsKeepClean(f, g, pass, order[..j], order[j..]);
    NotYet(order, j);
    StepsKeep(f, g, pass, order[..j]);
  }

  lemma SameAnswers(f: Folding, g: Graph, turn: Graph, pass: Pass, rn: Uuid)
    requires turn.entities == g.entities && SameRow(g, turn, rn)
    ensures Moves(f, turn, pass, rn) == Moves(f, g, pass, rn)
    ensures forall side: Side :: Prospect(f, turn, pass, rn, side) == Prospect(f, g, pass, rn, side)
    ensures forall side: Side :: Differs(f, turn, pass, rn, side) == Differs(f, g, pass, rn, side)
  {
    forall side: Side
      ensures Prospect(f, turn, pass, rn, side) == Prospect(f, g, pass, rn, side)
      ensures Differs(f, turn, pass, rn, side) == Differs(f, g, pass, rn, side)
    {
      assert turn.Hop(rn, side) == g.Hop(rn, side);
    }
  }

  /** With matching caches a row that does not move keeps its hops, and one that does leaves its pair. */
  lemma StaysOrLeaves(f: Folding, g: Graph, pass: Pass, rn: Uuid)
    requires g.Active(rn) && CacheMatches(g, pass.source)
    ensures Moves(f, g, pass, rn)
            <==> || Prospect(f, g, pass, rn, Src) != g.Hop(rn, Src)
                 || Prospect(f, g, pass, rn, Dst) != g.Hop(rn, Dst)
  {
    assert CacheMatchesAt(g, pass.source, rn, Src) && CacheMatchesAt(g, pass.source, rn, Dst);
  }

  /** A row that states a fact and does not move away states it at the end. */
  lemma StayerStates(f: Folding, g: Graph, pass: Pass, order: seq<Uuid>, q: Uuid, a: Uuid, b: Uuid, name: Name,
                     group: GroupId)
    requires Plain(f, g, pass, order) && g.Links(q, a, b, name, group)
    requires !(q in order && Moves(f, g, pass, q))
    ensures Steps(f, g, pass, order).HasDirectedEdge(a, b, name, group)
  {
    if q in order {
      var j: nat :| j < |order| && order[j] == q;
      StayerEnds(f, g, pass, order, j, a, b, name, group);
      LinkAtEnd(f, g, pass, order, j, a, b, name, group);
    } else {
      StepsKeep(f, g, pass, order);
      SameRowSameLinks(g, Steps(f, g, pass, order), q, a, b, name, group);
    }
  }

  lemma StayerEnds(f: Folding, g: Graph, pass: Pass, order: seq<Uuid>, j: nat, a: Uuid, b: Uuid, name: Name,
                   group: GroupId)
    requires Plain(f, g, pass, order) && j < |order|
    requires g.Links(order[j], a, b, name, group) && !Moves(f, g, pass, order[j])
    ensures EndedAs(f, g, pass, order, j, a, b, name, group)
  {
    var turn := Steps(f, g, pass, order[..j]);
    SameAtItsTurn(f, g, pass, order, j);
    SameAnswers(f, g, turn, pass, order[j]);
    StaysOrLeaves(f, g, pass, order[j]);
    HopsOf(g, order[j]);
  }

  /** A later candidate is, at an earlier turn, as the pass found it. */
  lemma SameUntilItsTurn(f: Folding, g: Graph, pass: Pass, order: seq<Uuid>, j: nat, k: nat)
    requires WellFormed(g) && AllActive(g, order) && Distinct(order) && j <= k < |order|
    ensures SameRow(g, Steps(f, g, pass, order[..j]), order[k])
  {
    assert g.Active(order[k]);
    assert forall n :: 0 <= n < j ==> order[..j][n] == order[n] != order[k];
    StepsKeep(f, g, pass, order[..j]);
  }

  /** The fact that a candidate moves to is stated at the end, by itself or by whoever condemned it, unless that
    * row moves away later. */
  lemma LastLandingStates(f: Folding, g: Graph, pass: Pass, order: seq<Uuid>, j: nat, a: Uuid, b: Uuid, name: Name,
                          group: GroupId)
    requires Plain(f, g, pass, order) && j < |order| && LandsLast(f, g, pass, order, j, a, b, name, group)
    ensures Steps(f, g, pass, order).HasDirectedEdge(a, b, name, group)
  {
    var turn := Steps(f, g, pass, order[..j]);
    SameAtItsTurn(f, g, pass, order, j);
    SameAnswers(f, g, turn, pass, order[j]);
    if Condemned(f, turn, pass, order[j]) {
      var q :| turn.Links(q, a, b, name, group);
      CondemningRowStays(f, g, pass, order, j, q, a, b, name, group);
    } else {
      LinkAtEnd(f, g, pass, order, j, a, b, name, group);
    }
  }

  lemma CondemningRowStays(f: Folding, g: Graph, pass: Pass, order: seq<Uuid>, j: nat, q: Uuid, a: Uuid, b: Uuid,
                           name: Name, group: GroupId)
    requires Plain(f, g, pass, order) && j < |order| && LandsLast(f, g, pass, order, j, a, b, name, group)
    requires Steps(f, g, pass, order[..j]).Links(q, a, b, name, group)
    ensures Steps(f, g, pass, order).HasDirectedEdge(a, b, name, group)
  {
    var turn := Steps(f, g, pass, order[..j]);
    StepsKeep(f, g, pass, order[..j]);
    if q in order[j..] {
      var k := IndexFrom(order, j, q);
      SameUntilItsTurn(f, g, pass, order, j, k);
      SameRowSameLinks(g, turn, q, a, b, name, group);
      LeaverIsLater(f, g, pass, order, j, k, a, b, name, group);
      StayerStates(f, g, pass, order, q, a, b, name, group);
    } else {
      UnvisitedStands(f, g, pass, order, j, q);
      SameRowSameLinks(turn, Steps(f, g, pass, order), q, a, b, name, group);
    }
  }

  /** A row that states the fact some candidate lands on last does not move, whether it is that one or later. */
  lemma LeaverIsLater(f: Folding, g: Graph, pass: Pass, order: seq<Uuid>, j: nat, k: nat, a: Uuid, b: Uuid, name: Name,
                      group: GroupId)
    requires Plain(f, g, pass, order) && j <= k < |order| && LandsLast(f, g, pass, order, j, a, b, name, group)
    requires g.Links(order[k], a, b, name, group)
    ensures !Moves(f, g, pass, order[k])
  {
    HopsOf(g, order[k]);
    StaysOrLeaves(f, g, pass, order[j]);
    assert k > j ==> !Leaves(f, g, pass, order[k], a, b, name, group);
  }

  /** Whatever states a fact at the end did so from the start without moving, or landed on it last. */
  lemma StatedAtEndIsStatedAfter(f: Folding, g: Graph, pass: Pass, order: seq<Uuid>, q: Uuid, a: Uuid, b: Uuid,
                                 name: Name, group: GroupId)
    requires Plain(f, g, pass, order) && Steps(f, g, pass, order).Links(q, a, b, name, group)
    ensures StatedAfter(f, g, pass, order, a, b, name, group)
  {
    StepsKeep(f, g, pass, order);
    if q in order {
      var j: nat :| j < |order| && order[j] == q;
      LinkAtEnd(f, g, pass, order, j, a, b, name, group);
      SurvivorStates(f, g, pass, order, j, a, b, name, group);
    } else {
      SameRowSameLinks(g, Steps(f, g, pass, order), q, a, b, name, group);
    }
  }

  lemma SurvivorStates(f: Folding, g: Graph, pass: Pass, order: seq<Uuid>, j: nat, a: Uuid, b: Uuid, name: Name,
                       group: GroupId)
    requires Plain(f, g, pass, order) && j < |order| && EndedAs(f, g, pass, order, j, a, b, name, group)
    ensures StatedAfter(f, g, pass, order, a, b, name, group)
  {
    var turn := Steps(f, g, pass, order[..j]);
    SameAtItsTurn(f, g, pass, order, j);
    SameAnswers(f, g, turn, pass, order[j]);
    StaysOrLeaves(f, g, pass, order[j]);
    if Moves(f, g, pass, order[j]) {
      forall k | j < k < |order|
        ensures !Leaves(f, g, pass, order[k], a, b, name, group)
      {
        SameUntilItsTurn(f, g, pass, order, j, k);
        SameRowSameLinks(g, turn, order[k], a, b, name, group);
      }
      assert LandsLast(f, g, pass, order, j, a, b, name, group);
    } else {
      assert g.Links(order[j], a, b, name, group);
    }
  }

  /** When a pass keeps a fact and when it loses it, by the graph it starts from: the fact is stated at the end
    * if and only if a row states it that is not a candidate about to move away, or a candidate moves to it
    * whose turn comes after that of every candidate that moves away. */
  lemma FactIsKeptIff(f: Folding, g: Graph, pass: Pass, order: seq<Uuid>, a: Uuid, b: Uuid, name: Name, group: GroupId)
    requires Plain(f, g, pass, order)
    ensures Steps(f, g, pass, order).HasDirectedEdge(a, b, name, group)
            <==> StatedAfter(f, g, pass, order, a, b, name, group)
  {
    if Steps(f, g, pass, order).HasDirectedEdge(a, b, name, group) {
      var q :| q in Steps(f, g, pass, order).edges && Steps(f, g, pass, order).Links(q, a, b, name, group);
      StatedAtEndIsStatedAfter(f, g, pass, order, q, a, b, name, group);
    }
    if q :| g.Links(q, a, b, name, group) && !(q in order && Moves(f, g, pass, q)) {
      StayerStates(f, g, pass, order, q, a, b, name, group);
    } else if j: nat :| j < |order| && LandsLast(f, g, pass, order, j, a, b, name, group) {
      LastLandingStates(f, g, pass, order, j, a, b, name, group);
    }
  }

  /** The candidate moves to a self-loop, or to a fact that is stated when its turn comes. */
  ghost predicate Doomed(f: Folding, g: Graph, pass: Pass, order: seq<Uuid>, i: nat)
    requires i < |order| && order[i] in g.edges
  {
    var rn := order[i];
    var a, b := Prospect(f, g, pass, rn, Src), Prospect(f, g, pass, rn, Dst);
    && Moves(f, g, pass, rn) && a.Some? && b.Some?
    && (a == b || StatedAfter(f, g, pass, order[..i], a.value, b.value, g.edges[rn].name, g.edges[rn].group))
  }

  lemma PlainFront(f: Folding, g: Graph, pass: Pass, order: seq<Uuid>, i: nat)
    requires Plain(f, g, pass, order) && i <= |order|
    ensures Plain(f, g, pass, order[..i])
  {
    assert forall rn <- order[..i] :: rn in order;
    assert forall j :: 0 <= j < i ==> order[..i][j] == order[j];
  }

  lemma DoomedIffCondemned(f: Folding, g: Graph, pass: Pass, order: seq<Uuid>, i: nat)
    requires Plain(f, g, pass, order) && i < |order| && order[i] in g.edges
    ensures var turn := Steps(f, g, pass, order[..i]);
            order[i] in turn.edges && (Condemned(f, turn, pass, order[i]) <==> Doomed(f, g, pass, order, i))
  {
    var turn, rn := Steps(f, g, pass, order[..i]), order[i];
    SameAtItsTurn(f, g, pass, order, i);
    SameAnswers(f, g, turn, pass, rn);
    PlainFront(f, g, pass, order, i);
    var a, b, row := Prospect(f, g, pass, rn, Src), Prospect(f, g, pass, rn, Dst), g.edges[rn];
    if a.Some? && b.Some? {
      FactIsKeptIff(f, g, pass, order[..i], a.value, b.value, row.name, row.group);
      assert turn.HasDirectedEdge(a.value, b.value, row.name, row.group)
          == exists q :: turn.Links(q, a.value, b.value, row.name, row.group);
    }
  }

  /** Which candidates a pass invalidates, by the graph it starts from. */
  lemma EdgeIsLostIff(f: Folding, g: Graph, pass: Pass, order: seq<Uuid>, i: nat)
    requires Plain(f, g, pass, order) && i < |order| && order[i] in g.edges
    ensures !Steps(f, g, pass, order).Active(order[i]) <==> Doomed(f, g, pass, order, i)
  {
    SameAtItsTurn(f, g, pass, order, i);
    DoomedIffCondemned(f, g, pass, order, i);
    StepInvalidatesIff(f, Steps(f, g, pass, order[..i]), pass, order[i]);
    TurnOf(f, g, pass, order, i);
  }
}
