/** Exactly when the staleness gate changes nothing: for one edge on any table, healed or not, and for a
  * whole pass. */
module RebindGateExact {
  import opened Common
  import opened PropertyGraph
  import opened NameLookup
  import opened PointerResolution
  import opened Rebind
  import opened RebindInvariants
  import opened RebindGate
  import opened RebindRuns
  import opened RebindSilence
  import opened RebindFacts

  // One edge, on any table.

  /** The entity table that the row's turn leaves. */
  function TableAfter(f: Folding, g: Graph, pass: Pass, rn: Uuid): Entities
    requires rn in g.edges
  {
    FindWrites(f, TableFor(f, g, pass, rn, Dst), pass, g.Position(pass.source), g.edges[rn].pointers.dst)
  }

  /** A forced check of this side comes to what the gated step leaves: a skipped pointer is current, in step with
    * its hop, and was checked at this position; a checked one gets the same answer. */
  ghost predicate SideAgrees(f: Folding, g: Graph, pass: Pass, rn: Uuid, side: Side)
    requires rn in g.edges
  {
    var p, pos := g.edges[rn].pointers.At(side), g.Position(pass.source);
    Points(pass, p) ==>
      var forced := ResolveEndpoint(f, TableFor(f, g, Forced(pass), rn, side), pass.source, p.value.name, p.value.kind);
      if Gated(pass, pos, p.value) then
        forced == Resolution(p.value.state, p.value.resolved) && g.Hop(rn, side) == p.value.resolved
        && p.value.boundAt == pos
      else
        ResolveEndpoint(f, TableFor(f, g, pass, rn, side), pass.source, p.value.name, p.value.kind) == forced
  }

  lemma AgreeingSideJudgedAlike(f: Folding, g: Graph, pass: Pass, rn: Uuid, side: Side)
    requires rn in g.edges && SideAgrees(f, g, pass, rn, side)
    ensures Prospect(f, g, pass, rn, side) == Prospect(f, g, Forced(pass), rn, side)
    ensures Differs(f, g, pass, rn, side) == Differs(f, g, Forced(pass), rn, side)
  {
  }

  lemma AgreeingSideEndsAlike(f: Folding, g: Graph, pass: Pass, rn: Uuid, side: Side, g1: Graph, g2: Graph)
    requires rn in g.edges && rn in g1.edges && rn in g2.edges && SideAgrees(f, g, pass, rn, side)
    requires SideRebound(f, g, pass, rn, side, TableFor(f, g, pass, rn, side), g1)
    requires SideRebound(f, g, Forced(pass), rn, side, TableFor(f, g, Forced(pass), rn, side), g2)
    ensures g1.edges[rn].pointers.At(side) == g2.edges[rn].pointers.At(side) && g1.Hop(rn, side) == g2.Hop(rn, side)
  {
  }

  lemma SameEndAgrees(f: Folding, g: Graph, pass: Pass, rn: Uuid, side: Side, g': Graph)
    requires rn in g.edges && rn in g'.edges
    requires SideRebound(f, g, pass, rn, side, TableFor(f, g, pass, rn, side), g')
    requires SideRebound(f, g, Forced(pass), rn, side, TableFor(f, g, Forced(pass), rn, side), g')
    ensures SideAgrees(f, g, pass, rn, side)
  {
  }

  /** Two steps of one active row that both leave it active, with the same pointers and hops and over the same
    * table, end in the same graph. */
  lemma SameEnds(g: Graph, rn: Uuid, g1: Graph, g2: Graph)
    requires WellFormed(g1) && WellFormed(g2) && StepFrame(g, g1, rn) && StepFrame(g, g2, rn)
    requires g1.Active(rn) && g2.Active(rn) && g1.entities == g2.entities
    requires forall side: Side :: g1.edges[rn].pointers.At(side) == g2.edges[rn].pointers.At(side)
                                  && g1.Hop(rn, side) == g2.Hop(rn, side)
    ensures g1 == g2
  {
    var p1, p2 := g1.edges[rn].pointers, g2.edges[rn].pointers;
    assert p1.At(Src) == p2.At(Src) && p1.At(Dst) == p2.At(Dst);
    assert g1.edges[rn] == g2.edges[rn];
    forall q <- g.edges
      ensures g1.edges[q] == g2.edges[q]
      ensures g1.Hop(q, Src) == g2.Hop(q, Src) && g1.Hop(q, Dst) == g2.Hop(q, Dst)
    {
      if q == rn {
        assert g1.Hop(q, Src) == g2.Hop(q, Src) && g1.Hop(q, Dst) == g2.Hop(q, Dst);
      }
    }
    assert g1.edges == g2.edges;
    SameGraph(g2, g1);
  }

  lemma StepsEndInTheirTables(f: Folding, g: Graph, pass: Pass, rn: Uuid)
    requires WellFormed(g) && rn in g.edges
    ensures Step(f, g, pass, rn).entities == TableAfter(f, g, pass, rn)
  {
    StepHealsOnly(f, g, pass, rn);
  }

  lemma ReboundAlike(f: Folding, g: Graph, pass: Pass, rn: Uuid, g1: Graph, g2: Graph)
    requires rn in g.edges && SideAgrees(f, g, pass, rn, Src) && SideAgrees(f, g, pass, rn, Dst)
    requires EdgeRebound(f, g, g, pass, rn, g1) && EdgeRebound(f, g, g, Forced(pass), rn, g2)
    requires g1.Active(rn) && g2.Active(rn)
    ensures forall side: Side :: g1.edges[rn].pointers.At(side) == g2.edges[rn].pointers.At(side)
                                 && g1.Hop(rn, side) == g2.Hop(rn, side)
  {
    AgreeingSideEndsAlike(f, g, pass, rn, Src, g1, g2);
    AgreeingSideEndsAlike(f, g, pass, rn, Dst, g1, g2);
  }

  lemma SurvivorsEndAlike(f: Folding, g: Graph, pass: Pass, rn: Uuid)
    requires WellFormed(g) && g.Active(rn) && SideAgrees(f, g, pass, rn, Src) && SideAgrees(f, g, pass, rn, Dst)
    requires TableAfter(f, g, pass, rn) == TableAfter(f, g, Forced(pass), rn)
    requires Step(f, g, pass, rn).Active(rn) && Step(f, g, Forced(pass), rn).Active(rn)
    ensures Step(f, g, pass, rn) == Step(f, g, Forced(pass), rn)
  {
    StepRebinds(f, g, pass, rn);
    StepRebinds(f, g, Forced(pass), rn);
    ReboundAlike(f, g, pass, rn, Step(f, g, pass, rn), Step(f, g, Forced(pass), rn));
    StepKeeps(f, g, pass, rn);
    StepKeeps(f, g, Forced(pass), rn);
    StepsEndInTheirTables(f, g, pass, rn);
    StepsEndInTheirTables(f, g, Forced(pass), rn);
    SameEnds(g, rn, Step(f, g, pass, rn), Step(f, g, Forced(pass), rn));
  }

  lemma CondemnedEnd(f: Folding, g: Graph, pass: Pass, rn: Uuid)
    requires WellFormed(g) && g.Active(rn) && Condemned(f, g, pass, rn)
    ensures Step(f, g, pass, rn) == g.(entities := TableAfter(f, g, pass, rn)).Invalidate(rn, pass.ts)
  {
    var found := Phase1(f, g, pass, rn);
    FoundSides(f, g, pass, rn);
    JudgedOnHealed(g, found.g, rn, found.src, found.dst);
  }

  /** The gated and the forced step of an edge agree if and only if their lookups leave the same table, and
    * every side agrees or both condemn the edge. Nothing is asked of the keys. */
  lemma StepGateIsExact(f: Folding, g: Graph, pass: Pass, rn: Uuid)
    requires WellFormed(g) && g.Active(rn)
    ensures Step(f, g, pass, rn) == Step(f, g, Forced(pass), rn)
            <==> && TableAfter(f, g, pass, rn) == TableAfter(f, g, Forced(pass), rn)
                 && ((SideAgrees(f, g, pass, rn, Src) && SideAgrees(f, g, pass, rn, Dst))
                     || (Condemned(f, g, pass, rn) && Condemned(f, g, Forced(pass), rn)))
  {
    StepsEndInTheirTables(f, g, pass, rn);
    StepsEndInTheirTables(f, g, Forced(pass), rn);
    StepInvalidatesIff(f, g, pass, rn);
    StepInvalidatesIff(f, g, Forced(pass), rn);
    if SideAgrees(f, g, pass, rn, Src) && SideAgrees(f, g, pass, rn, Dst) {
      AgreeingSideJudgedAlike(f, g, pass, rn, Src);
      AgreeingSideJudgedAlike(f, g, pass, rn, Dst);
    }
    if Condemned(f, g, pass, rn) && Condemned(f, g, Forced(pass), rn) {
      CondemnedEnd(f, g, pass, rn);
      CondemnedEnd(f, g, Forced(pass), rn);
    } else if TableAfter(f, g, pass, rn) == TableAfter(f, g, Forced(pass), rn)
              && SideAgrees(f, g, pass, rn, Src) && SideAgrees(f, g, pass, rn, Dst) {
      SurvivorsEndAlike(f, g, pass, rn);
    } else if Step(f, g, pass, rn) == Step(f, g, Forced(pass), rn) {
      EqualSurvivorsAgree(f, g, pass, rn);
    }
  }

  lemma EqualSurvivorsAgree(f: Folding, g: Graph, pass: Pass, rn: Uuid)
    requires WellFormed(g) && g.Active(rn)
    requires Step(f, g, pass, rn) == Step(f, g, Forced(pass), rn) && Step(f, g, pass, rn).Active(rn)
    ensures SideAgrees(f, g, pass, rn, Src) && SideAgrees(f, g, pass, rn, Dst)
  {
    StepRebinds(f, g, pass, rn);
    StepRebinds(f, g, Forced(pass), rn);
    SameEndAgrees(f, g, pass, rn, Src, Step(f, g, pass, rn));
    SameEndAgrees(f, g, pass, rn, Dst, Step(f, g, pass, rn));
  }

  // A whole pass.

  ghost predicate SkipsAreHarmless(f: Folding, g: Graph, pass: Pass, rn: Uuid) {
    SkipIsHarmless(f, g, pass, rn, Src) && SkipIsHarmless(f, g, pass, rn, Dst)
  }

  lemma HarmlessAtItsTurn(f: Folding, g: Graph, turn: Graph, pass: Pass, rn: Uuid)
    requires turn.entities == g.entities && SameRow(g, turn, rn)
    ensures SkipsAreHarmless(f, turn, pass, rn) <==> SkipsAreHarmless(f, g, pass, rn)
  {
    forall side: Side
      ensures SkipIsHarmless(f, turn, pass, rn, side) <==> SkipIsHarmless(f, g, pass, rn, side)
    {
      assert turn.Hop(rn, side) == g.Hop(rn, side);
    }
  }

  /** What two passes have in common at the end, they had in common before their last step. */
  lemma FrontsAgree(f: Folding, g: Graph, pass: Pass, front: seq<Uuid>, last: Uuid)
    requires WellFormed(g) && Clean(f, g, pass.source) && AllActive(g, front + [last]) && Distinct(front + [last])
    requires Step(f, Steps(f, g, pass, front), pass, last)
          == Step(f, Steps(f, g, Forced(pass), front), Forced(pass), last)
    ensures Steps(f, g, pass, front) == Steps(f, g, Forced(pass), front)
  {
    var a, b := Steps(f, g, pass, front), Steps(f, g, Forced(pass), front);
    StepsKeepClean(f, g, pass, front, [last]);
    StepsKeepClean(f, g, Forced(pass), front, [last]);
    StepsKeep(f, g, pass, front);
    StepsKeep(f, g, Forced(pass), front);
    StepKeeps(f, a, pass, last);
    StepKeeps(f, b, Forced(pass), last);
    LastNotInFront(front, last);
    RowsAgreeBefore(g, a, b, last, Step(f, a, pass, last));
  }

  lemma LastNotInFront(front: seq<Uuid>, last: Uuid)
    requires Distinct(front + [last])
    ensures last !in front && last in front + [last]
  {
    assert forall i :: 0 <= i < |front| ==> front[i] == (front + [last])[i] != (front + [last])[|front|];
    assert (front + [last])[|front|] == last;
  }

  lemma RowsAgreeBefore(g: Graph, a: Graph, b: Graph, last: Uuid, end: Graph)
    requires WellFormed(a) && WellFormed(b) && a.entities == b.entities
    requires SameRow(g, a, last) && SameRow(g, b, last) && StepFrame(a, end, last) && StepFrame(b, end, last)
    ensures a == b
  {
    forall q <- a.edges
      ensures q in b.edges && a.edges[q] == b.edges[q]
      ensures a.Hop(q, Src) == b.Hop(q, Src) && a.Hop(q, Dst) == b.Hop(q, Dst)
    {
      if q != last {
        assert end.Hop(q, Src) == a.Hop(q, Src) && end.Hop(q, Dst) == a.Hop(q, Dst);
      }
    }
    assert a.edges == b.edges;
    SameGraph(b, a);
  }

  /** From a graph that both passes have reached, the last turn agrees if and only if the skips are harmless on the
    * graph at the start, or both condemn the edge. */
  lemma LastTurnIsExact(f: Folding, g: Graph, pass: Pass, front: seq<Uuid>, last: Uuid)
    requires WellFormed(g) && Clean(f, g, pass.source) && AllActive(g, front + [last]) && Distinct(front + [last])
    ensures var turn := Steps(f, g, pass, front);
            && last in turn.edges
            && (Step(f, turn, pass, last) == Step(f, turn, Forced(pass), last)
                <==> || SkipsAreHarmless(f, g, pass, last)
                     || (Condemned(f, turn, pass, last) && Condemned(f, turn, Forced(pass), last)))
  {
    var turn := Steps(f, g, pass, front);
    StepsKeepClean(f, g, pass, front, [last]);
    StepsKeep(f, g, pass, front);
    LastNotInFront(front, last);
    assert [last][0] == last && g.Active(last);
    assert CleanAt(f, turn, pass.source, last, Src) && CleanAt(f, turn, pass.source, last, Dst);
    GateIsExact(f, turn, pass, last);
    HarmlessAtItsTurn(f, g, turn, pass, last);
  }

  /** Every skip of the candidate is harmless, or it is condemned at its turn whether or not it is forced. */
  ghost predicate TurnAgrees(f: Folding, g: Graph, pass: Pass, order: seq<Uuid>, i: nat)
    requires i < |order|
  {
    var turn := Steps(f, g, pass, order[..i]);
    || SkipsAreHarmless(f, g, pass, order[i])
    || (order[i] in turn.edges && Condemned(f, turn, pass, order[i]) && Condemned(f, turn, Forced(pass), order[i]))
  }

  lemma SplitLast(order: seq<Uuid>)
    requires order != []
    ensures order == order[..|order| - 1] + [order[|order| - 1]]
    ensures forall i :: 0 <= i < |order| - 1 ==> order[..|order| - 1][..i] == order[..i]
  {
  }

  ghost predicate TurnsAgree(f: Folding, g: Graph, pass: Pass, order: seq<Uuid>) {
    forall i :: 0 <= i < |order| ==> TurnAgrees(f, g, pass, order, i)
  }

  lemma TurnsAgreeStep(f: Folding, g: Graph, pass: Pass, order: seq<Uuid>)
    requires order != []
    ensures var n := |order| - 1;
            TurnsAgree(f, g, pass, order) <==> TurnsAgree(f, g, pass, order[..n]) && TurnAgrees(f, g, pass, order, n)
  {
    var n := |order| - 1;
    SplitLast(order);
    forall i | 0 <= i < n
      ensures TurnAgrees(f, g, pass, order[..n], i) <==> TurnAgrees(f, g, pass, order, i)
    {
      assert order[..n][..i] == order[..i] && order[..n][i] == order[i];
    }
  }

  lemma PassStep(f: Folding, g: Graph, pass: Pass, order: seq<Uuid>)
    requires WellFormed(g) && Clean(f, g, pass.source) && AllActive(g, order) && Distinct(order) && order != []
    ensures var n := |order| - 1;
            Steps(f, g, pass, order) == Steps(f, g, Forced(pass), order)
            <==> && Steps(f, g, pass, order[..n]) == Steps(f, g, Forced(pass), order[..n])
                 && TurnAgrees(f, g, pass, order, n)
  {
    var n := |order| - 1;
    SplitLast(order);
    LastTurnIsExact(f, g, pass, order[..n], order[n]);
    if Steps(f, g, pass, order) == Steps(f, g, Forced(pass), order) {
      FrontsAgree(f, g, pass, order[..n], order[n]);
    }
  }

  /** A gated and a forced pass whose lookups heal nothing end in the same graph if and only if each candidate's
    * skips are harmless, or it is condemned at its turn both ways. */
  lemma {:induction false} PassGateIsExact(f: Folding, g: Graph, pass: Pass, order: seq<Uuid>)
    requires WellFormed(g) && Clean(f, g, pass.source) && AllActive(g, order) && Distinct(order)
    ensures Steps(f, g, pass, order) == Steps(f, g, Forced(pass), order) <==> TurnsAgree(f, g, pass, order)
    decreases |order|
  {
    if order != [] {
      var n := |order| - 1;
      SplitLast(order);
      assert forall rn <- order[..n] :: rn in order;
      assert Distinct(order[..n]);
      PassGateIsExact(f, g, pass, order[..n]);
      TurnsAgreeStep(f, g, pass, order);
      PassStep(f, g, pass, order);
    }
  }

  // The same by the graph at the start.

  ghost predicate GateHarmlessAt(f: Folding, g: Graph, pass: Pass, order: seq<Uuid>, i: nat)
    requires i < |order| && order[i] in g.edges
  {
    || SkipsAreHarmless(f, g, pass, order[i])
    || (Doomed(f, g, pass, order, i) && Doomed(f, g, Forced(pass), order, i))
  }

  ghost predicate GateHarmless(f: Folding, g: Graph, pass: Pass, order: seq<Uuid>) {
    forall i :: 0 <= i < |order| ==> order[i] in g.edges && GateHarmlessAt(f, g, pass, order, i)
  }

  lemma GateHarmlessStep(f: Folding, g: Graph, pass: Pass, order: seq<Uuid>)
    requires order != [] && AllActive(g, order)
    ensures var n := |order| - 1;
            && order[n] in g.edges
            && (GateHarmless(f, g, pass, order)
                <==> GateHarmless(f, g, pass, order[..n]) && GateHarmlessAt(f, g, pass, order, n))
  {
    var n := |order| - 1;
    SplitLast(order);
    assert forall i :: 0 <= i < |order| ==> g.Active(order[i]);
    forall i | 0 <= i < n
      ensures order[..n][i] == order[i] && order[i] in g.edges
      ensures GateHarmlessAt(f, g, pass, order[..n], i) <==> GateHarmlessAt(f, g, pass, order, i)
    {
      assert order[..n][..i] == order[..i];
    }
  }

  lemma SameTurnSameVerdict(f: Folding, g: Graph, pass: Pass, order: seq<Uuid>)
    requires Plain(f, g, pass, order) && order != []
    requires var n := |order| - 1; Steps(f, g, pass, order[..n]) == Steps(f, g, Forced(pass), order[..n])
    ensures var n := |order| - 1;
            order[n] in g.edges && (TurnAgrees(f, g, pass, order, n) <==> GateHarmlessAt(f, g, pass, order, n))
  {
    var n := |order| - 1;
    assert order[n] in order && g.Active(order[n]);
    DoomedIffCondemned(f, g, pass, order, n);
    DoomedIffCondemned(f, g, Forced(pass), order, n);
  }

  /** With matching caches as well, the condition is one on the graph at the start: each candidate's skips are
    * harmless, or it is doomed in the gated and in the forced pass. */
  lemma {:induction false} GateIsHarmlessIff(f: Folding, g: Graph, pass: Pass, order: seq<Uuid>)
    requires Plain(f, g, pass, order)
    ensures Steps(f, g, pass, order) == Steps(f, g, Forced(pass), order) <==> GateHarmless(f, g, pass, order)
    decreases |order|
  {
    if order != [] {
      var n := |order| - 1;
      PlainFront(f, g, pass, order, n);
      GateIsHarmlessIff(f, g, pass, order[..n]);
      GateHarmlessStep(f, g, pass, order);
      PassStep(f, g, pass, order);
      if Steps(f, g, pass, order[..n]) == Steps(f, g, Forced(pass), order[..n]) {
        SameTurnSameVerdict(f, g, pass, order);
      }
    }
  }
}
