/** One candidate's turn in a rebind pass, and the counters of a pass, said of the graph before and after:
  * which sides are looked at, what becomes of the row, and what each counter counts. Nothing here goes
  * through the functions that compute a step. */
module RebindTurns {
  import opened Common
  import opened PropertyGraph
  import opened NameLookup
  import opened PointerResolution
  import opened Rebind
  import opened RebindInvariants
  import opened RebindPass

  ghost function Now(g: Graph, group: GroupId): Option<nat> {
    if group in g.positions then Some(g.positions[group]) else None
  }

  /** The side points into the source group, and the pass looks it up again: always when it is forced, when the
    * pointer is not bound, and when its position or the present one is unknown or it is behind. */
  ghost predicate LookedAt(pass: Pass, now: Option<nat>, p: Option<Pointer>) {
    && p.Some? && p.value.source == pass.source
    && (pass.force || !p.value.state.Bound? || p.value.boundAt.None? || now.None? || p.value.boundAt.value < now.value)
  }

  /** The side points into the source group, and the pass takes it for current. */
  ghost predicate TakenAsCurrent(pass: Pass, now: Option<nat>, p: Option<Pointer>) {
    && p.Some? && p.value.source == pass.source
    && !pass.force && p.value.state.Bound? && p.value.boundAt.Some? && now.Some?
    && now.value <= p.value.boundAt.value
  }

  ghost function Answer(f: Folding, ents: Entities, pass: Pass, now: Option<nat>, p: Option<Pointer>)
    : Option<Resolution>
  {
    if LookedAt(pass, now, p) then Some(ResolveEndpoint(f, ents, pass.source, p.value.name, p.value.kind)) else None
  }

  ghost function LeftBy(f: Folding, ents: Entities, pass: Pass, now: Option<nat>, p: Option<Pointer>): Entities {
    if LookedAt(pass, now, p) then LookupWrites(f, ents, pass.source, p.value.name, p.value.kind) else ents
  }

  /** What the turn finds: the source side is looked up first, the target side in what that left. */
  datatype Turn = Turn(src: Option<Resolution>, dst: Option<Resolution>, ents: Entities)

  ghost function TurnIn(f: Folding, g: Graph, pass: Pass, rn: Uuid): Turn
    requires rn in g.edges
  {
    var now, ps := Now(g, pass.source), g.edges[rn].pointers;
    var between := LeftBy(f, g.entities, pass, now, ps.src);
    Turn(Answer(f, g.entities, pass, now, ps.src), Answer(f, between, pass, now, ps.dst),
         LeftBy(f, between, pass, now, ps.dst))
  }

  /** Where the side ends if the edge stays: at the answer, or where it ended before. */
  ghost function EndOf(r: Option<Resolution>, hop: Option<Uuid>): Option<Uuid> {
    match r
    case None => hop
    case Some(answer) => answer.uuid
  }

  ghost predicate NewAnswer(r: Option<Resolution>, p: Option<Pointer>) {
    r.Some? && p.Some? && r.value.uuid != p.value.resolved
  }

  /** Some answer is not the cached one, and both ends are there. */
  ghost predicate Moves(g: Graph, rn: Uuid, t: Turn)
    requires rn in g.edges
  {
    && (NewAnswer(t.src, g.edges[rn].pointers.src) || NewAnswer(t.dst, g.edges[rn].pointers.dst))
    && EndOf(t.src, g.Hop(rn, Src)).Some? && EndOf(t.dst, g.Hop(rn, Dst)).Some?
  }

  ghost predicate BecomesLoop(g: Graph, rn: Uuid, t: Turn)
    requires rn in g.edges
  {
    Moves(g, rn, t) && EndOf(t.src, g.Hop(rn, Src)) == EndOf(t.dst, g.Hop(rn, Dst))
  }

  /** Some active row joins the two ends already, under the name and in the group of the edge. */
  ghost predicate BecomesTwin(g: Graph, rn: Uuid, t: Turn)
    requires rn in g.edges
  {
    var a, b := EndOf(t.src, g.Hop(rn, Src)), EndOf(t.dst, g.Hop(rn, Dst));
    && Moves(g, rn, t) && a != b
    && exists q :: && q in g.edges && g.edges[q].invalidAt.None?
                   && g.edges[q].name == g.edges[rn].name && g.edges[q].group == g.edges[rn].group
                   && g.Hop(q, Src) == a && g.Hop(q, Dst) == b
  }

  ghost predicate IsLost(g: Graph, rn: Uuid, t: Turn)
    requires rn in g.edges
  {
    BecomesLoop(g, rn, t) || BecomesTwin(g, rn, t)
  }

  lemma ChecksIs(pass: Pass, g: Graph, p: Option<Pointer>)
    ensures g.Position(pass.source) == Now(g, pass.source)
    ensures Checks(pass, g.Position(pass.source), p) <==> LookedAt(pass, Now(g, pass.source), p)
    ensures Points(pass, p) && Gated(pass, g.Position(pass.source), p.value)
            <==> TakenAsCurrent(pass, Now(g, pass.source), p)
  {
  }

  lemma TurnFinds(f: Folding, g: Graph, pass: Pass, rn: Uuid)
    requires rn in g.edges
    ensures var t, found := TurnIn(f, g, pass, rn), Phase1(f, g, pass, rn);
            t.src == found.src && t.dst == found.dst && found.g == g.(entities := t.ents)
  {
    ChecksIs(pass, g, g.edges[rn].pointers.src);
    ChecksIs(pass, g, g.edges[rn].pointers.dst);
  }

  lemma TwinIs(g: Graph, a: Uuid, b: Uuid, name: Name, group: GroupId)
    ensures g.HasDirectedEdge(a, b, name, group)
            <==> exists q :: && q in g.edges && g.edges[q].invalidAt.None?
                             && g.edges[q].name == name && g.edges[q].group == group
                             && g.Hop(q, Src) == Some(a) && g.Hop(q, Dst) == Some(b)
  {
    if q :| q in g.edges && g.Links(q, a, b, name, group) {
      assert g.Hop(q, Src) == Some(a) && g.Hop(q, Dst) == Some(b);
    }
    if q :| && q in g.edges && g.edges[q].invalidAt.None? && g.edges[q].name == name && g.edges[q].group == group
            && g.Hop(q, Src) == Some(a) && g.Hop(q, Dst) == Some(b) {
      assert g.Links(q, a, b, name, group);
    }
  }

  /** Phase 2 decides as said, in whichever graph. */
  lemma JudgeIs(g: Graph, rn: Uuid, t: Turn)
    requires rn in g.edges
    ensures var outcome := Judge(g, rn, t.src, t.dst);
            && (outcome.Untouched? <==> t.src.None? && t.dst.None?)
            && (outcome.SelfLooped? <==> BecomesLoop(g, rn, t))
            && (outcome.Duplicate? <==> BecomesTwin(g, rn, t))
  {
    var a, b := EndOf(t.src, g.Hop(rn, Src)), EndOf(t.dst, g.Hop(rn, Dst));
    if a.Some? && b.Some? {
      TwinIs(g, a.value, b.value, g.edges[rn].name, g.edges[rn].group);
    }
  }

  /** Healing the entity table makes no difference to it. */
  lemma LostAlike(g: Graph, g1: Graph, rn: Uuid, t: Turn)
    requires g1 == g.(entities := g1.entities) && rn in g.edges
    ensures BecomesLoop(g1, rn, t) <==> BecomesLoop(g, rn, t)
    ensures BecomesTwin(g1, rn, t) <==> BecomesTwin(g, rn, t)
  {
    assert forall q, side :: g1.Hop(q, side) == g.Hop(q, side);
  }

  lemma JudgedAs(f: Folding, g: Graph, pass: Pass, rn: Uuid)
    requires rn in g.edges
    ensures var t, found := TurnIn(f, g, pass, rn), Phase1(f, g, pass, rn);
            var outcome := Judge(found.g, rn, found.src, found.dst);
            && (outcome.Untouched? <==> t.src.None? && t.dst.None?)
            && (outcome.SelfLooped? <==> BecomesLoop(g, rn, t))
            && (outcome.Duplicate? <==> BecomesTwin(g, rn, t))
  {
    var t, found := TurnIn(f, g, pass, rn), Phase1(f, g, pass, rn);
    TurnFinds(f, g, pass, rn);
    JudgeIs(found.g, rn, t);
    LostAlike(g, found.g, rn, t);
  }

  // What the turn leaves.

  /** A side that was looked up records the answer at the present position and ends at it; another is as it
    * was. */
  ghost predicate SideTurned(r: Option<Resolution>, now: Option<nat>, p: Option<Pointer>, hop: Option<Uuid>,
                             p': Option<Pointer>, hop': Option<Uuid>) {
    match r
    case None => p' == p && hop' == hop
    case Some(answer) =>
      && hop' == answer.uuid && p.Some? && p'.Some?
      && p'.value.source == p.value.source && p'.value.name == p.value.name && p'.value.kind == p.value.kind
      && p'.value.resolved == answer.uuid && p'.value.state == answer.state && p'.value.boundAt == now
  }

  /** Nothing but row `rn` and the entity table is touched. */
  ghost predicate Elsewhere(g: Graph, g': Graph, rn: Uuid) {
    && g'.edges.Keys == g.edges.Keys && (forall q <- g.edges :: q != rn ==> g'.edges[q] == g.edges[q])
    && (forall q, side :: q != rn ==> g'.Hop(q, side) == g.Hop(q, side))
    && (forall q :: q != rn ==> g'.Direct(q) == g.Direct(q))
    && g'.positions == g.positions && g'.next == g.next
  }

  ghost predicate LosesRow(g: Graph, pass: Pass, g': Graph, rn: Uuid)
    requires rn in g.edges && rn in g'.edges
  {
    && g'.edges[rn] == g.edges[rn].(invalidAt := Some(pass.ts))
    && g'.Hop(rn, Src) == g.Hop(rn, Src) && g'.Hop(rn, Dst) == g.Hop(rn, Dst) && g'.Direct(rn) == g.Direct(rn)
  }

  ghost predicate KeepsRow(g: Graph, pass: Pass, t: Turn, g': Graph, rn: Uuid)
    requires rn in g.edges && rn in g'.edges
  {
    var ps, ps', now := g.edges[rn].pointers, g'.edges[rn].pointers, Now(g, pass.source);
    && g'.edges[rn] == g.edges[rn].(pointers := ps')
    && SideTurned(t.src, now, ps.src, g.Hop(rn, Src), ps'.src, g'.Hop(rn, Src))
    && SideTurned(t.dst, now, ps.dst, g.Hop(rn, Dst), ps'.dst, g'.Hop(rn, Dst))
    && var a, b := g'.Hop(rn, Src), g'.Hop(rn, Dst);
       g'.Direct(rn) == if a.Some? && b.Some? then Some((a.value, b.value)) else None
  }

  lemma SettledKeepsRow(g: Graph, pass: Pass, t: Turn, rn: Uuid, now: Option<nat>, g': Graph)
    requires rn in g.edges && now == Now(g, pass.source)
    requires Settled(g, rn, t.src, t.dst, now, g')
    requires t.src.Some? ==> g.edges[rn].pointers.src.Some?
    requires t.dst.Some? ==> g.edges[rn].pointers.dst.Some?
    ensures KeepsRow(g, pass, t, g', rn) && Elsewhere(g, g', rn)
  {
  }

  lemma InvalidatedLoses(g: Graph, pass: Pass, rn: Uuid)
    requires rn in g.edges
    ensures Elsewhere(g, g.Invalidate(rn, pass.ts), rn) && LosesRow(g, pass, g.Invalidate(rn, pass.ts), rn)
  {
  }

  lemma UntouchedKeeps(g: Graph, pass: Pass, t: Turn, rn: Uuid)
    requires WellFormed(g) && rn in g.edges && t.src.None? && t.dst.None?
    ensures Elsewhere(g, g, rn) && KeepsRow(g, pass, t, g, rn)
  {
    assert DirectSynced(g, rn);
  }

  lemma SettledIs(g: Graph, pass: Pass, t: Turn, rn: Uuid)
    requires WellFormed(g) && rn in g.edges && LegalFind(g, t.src) && LegalFind(g, t.dst)
    requires t.src.Some? ==> g.edges[rn].pointers.src.Some?
    requires t.dst.Some? ==> g.edges[rn].pointers.dst.Some?
    ensures var g' := Settle(g, rn, t.src, t.dst, Now(g, pass.source), pass.ts);
            && Elsewhere(g, g', rn) && g'.entities == g.entities && rn in g'.edges
            && (if IsLost(g, rn, t) then LosesRow(g, pass, g', rn) else KeepsRow(g, pass, t, g', rn))
  {
    JudgeIs(g, rn, t);
    match Judge(g, rn, t.src, t.dst)
    case Untouched => UntouchedKeeps(g, pass, t, rn);
    case SelfLooped | Duplicate => InvalidatedLoses(g, pass, rn);
    case Survives =>
      var now := Now(g, pass.source);
      SurvivorSettled(g, rn, t.src, t.dst, now);
      SettledKeepsRow(g, pass, t, rn, now, Survive(g, rn, t.src, t.dst, now));
  }

  /** The turn of one candidate, exactly: the row is invalidated if it would become a loop or a twin, and kept
    * with its looked-up sides rewritten otherwise. */
  lemma TurnIs(f: Folding, g: Graph, pass: Pass, rn: Uuid)
    requires WellFormed(g) && rn in g.edges
    ensures var t, g' := TurnIn(f, g, pass, rn), Step(f, g, pass, rn);
            && Elsewhere(g, g', rn) && g'.entities == t.ents && rn in g'.edges
            && (if IsLost(g, rn, t) then LosesRow(g, pass, g', rn) else KeepsRow(g, pass, t, g', rn))
  {
    var t, found := TurnIn(f, g, pass, rn), Phase1(f, g, pass, rn);
    TurnFinds(f, g, pass, rn);
    ChecksIs(pass, g, g.edges[rn].pointers.src);
    ChecksIs(pass, g, g.edges[rn].pointers.dst);
    HealedWellFormed(g, found.g);
    SettledIs(found.g, pass, t, rn);
    LostAlike(g, found.g, rn, t);
    SameForHealed(g, found.g, pass, t, rn, Step(f, g, pass, rn));
  }

  lemma SameForHealed(g: Graph, g1: Graph, pass: Pass, t: Turn, rn: Uuid, g': Graph)
    requires g1 == g.(entities := g1.entities) && rn in g.edges && rn in g'.edges
    ensures Elsewhere(g1, g', rn) ==> Elsewhere(g, g', rn)
    ensures LosesRow(g1, pass, g', rn) ==> LosesRow(g, pass, g', rn)
    ensures KeepsRow(g1, pass, t, g', rn) ==> KeepsRow(g, pass, t, g', rn)
  {
    assert forall q, side :: g1.Hop(q, side) == g.Hop(q, side);
    assert forall q :: g1.Direct(q) == g.Direct(q);
  }

  // What the counters count.

  /** What there is to count in one turn: which sides are looked at and which are taken for current, whether the
    * edge is lost, and the states of the answers of an edge that is not. */
  datatype Seen = Seen(
    looksSrc: bool, looksDst: bool,
    skipsSrc: bool, skipsDst: bool,
    loop: bool, twin: bool,
    src: Option<BindingState>, dst: Option<BindingState>)

  ghost function StateOf(r: Option<Resolution>, lost: bool): Option<BindingState> {
    if r.None? || lost then None else Some(r.value.state)
  }

  ghost function SeenIn(f: Folding, g: Graph, pass: Pass, rn: Uuid): Seen
    requires rn in g.edges
  {
    var now, ps, t := Now(g, pass.source), g.edges[rn].pointers, TurnIn(f, g, pass, rn);
    Seen(LookedAt(pass, now, ps.src), LookedAt(pass, now, ps.dst),
         TakenAsCurrent(pass, now, ps.src), TakenAsCurrent(pass, now, ps.dst),
         BecomesLoop(g, rn, t), BecomesTwin(g, rn, t),
         StateOf(t.src, IsLost(g, rn, t)), StateOf(t.dst, IsLost(g, rn, t)))
  }

  ghost function Tally(a: bool, b: bool): nat {
    (if a then 1 else 0) + (if b then 1 else 0)
  }

  ghost predicate Adds(c: RebindCounts, v: Seen) {
    && c.checked == Tally(v.looksSrc, v.looksDst) && c.skipped == Tally(v.skipsSrc, v.skipsDst)
    && c.selfLoops == Tally(v.loop, false) && c.duplicates == Tally(v.twin, false)
    && c.bound == Tally(v.src == Some(Bound), v.dst == Some(Bound))
    && c.unbound == Tally(v.src == Some(Unbound), v.dst == Some(Unbound))
    && c.ambiguous == Tally(v.src == Some(Ambiguous), v.dst == Some(Ambiguous))
  }

  lemma SideCounted(pass: Pass, pos: Option<nat>, p: Option<Pointer>, looks: bool, skips: bool)
    requires Checks(pass, pos, p) == looks && (Points(pass, p) && Gated(pass, pos, p.value)) == skips
    ensures SideChecks(pass, pos, p) == RebindCounts(Tally(looks, false), 0, 0, 0, 0, 0, Tally(skips, false))
  {
  }

  lemma OutcomeCounted(outcome: Outcome, s: Option<Resolution>, d: Option<Resolution>, loop: bool, twin: bool)
    requires outcome.Untouched? <==> s.None? && d.None?
    requires (outcome.SelfLooped? <==> loop) && (outcome.Duplicate? <==> twin)
    ensures Adds(OutcomeCounts(outcome, s, d),
                 Seen(false, false, false, false, loop, twin, StateOf(s, loop || twin), StateOf(d, loop || twin)))
  {
  }

  lemma SumOfThree(a: RebindCounts, b: RebindCounts, c: RebindCounts, x: nat, y: nat)
    requires a == RebindCounts(a.checked, 0, 0, 0, 0, 0, a.skipped)
    requires b == RebindCounts(b.checked, 0, 0, 0, 0, 0, b.skipped)
    requires c.checked == c.skipped == 0 && a.checked + b.checked == x && a.skipped + b.skipped == y
    ensures a.Plus(b).Plus(c) == c.(checked := x, skipped := y)
  {
  }

  lemma TallyAdds(a: bool, b: bool)
    ensures Tally(a, false) + Tally(b, false) == Tally(a, b)
  {
  }

  lemma WithSides(c: RebindCounts, v: Seen)
    requires Adds(c, Seen(false, false, false, false, v.loop, v.twin, v.src, v.dst))
    ensures Adds(c.(checked := Tally(v.looksSrc, v.looksDst), skipped := Tally(v.skipsSrc, v.skipsDst)), v)
  {
  }

  lemma AddedTogether(a: RebindCounts, b: RebindCounts, c: RebindCounts, v: Seen)
    requires a == RebindCounts(Tally(v.looksSrc, false), 0, 0, 0, 0, 0, Tally(v.skipsSrc, false))
    requires b == RebindCounts(Tally(v.looksDst, false), 0, 0, 0, 0, 0, Tally(v.skipsDst, false))
    requires Adds(c, Seen(false, false, false, false, v.loop, v.twin, v.src, v.dst))
    ensures Adds(a.Plus(b).Plus(c), v)
  {
    TallyAdds(v.looksSrc, v.looksDst);
    TallyAdds(v.skipsSrc, v.skipsDst);
    SumOfThree(a, b, c, Tally(v.looksSrc, v.looksDst), Tally(v.skipsSrc, v.skipsDst));
    WithSides(c, v);
  }

  lemma CountedAs(f: Folding, pass: Pass, pos: Option<nat>, ps: Pointers, outcome: Outcome,
                  s: Option<Resolution>, d: Option<Resolution>, v: Seen)
    requires Checks(pass, pos, ps.src) == v.looksSrc && Checks(pass, pos, ps.dst) == v.looksDst
    requires (Points(pass, ps.src) && Gated(pass, pos, ps.src.value)) == v.skipsSrc
    requires (Points(pass, ps.dst) && Gated(pass, pos, ps.dst.value)) == v.skipsDst
    requires outcome.Untouched? <==> s.None? && d.None?
    requires (outcome.SelfLooped? <==> v.loop) && (outcome.Duplicate? <==> v.twin)
    requires v.src == StateOf(s, v.loop || v.twin) && v.dst == StateOf(d, v.loop || v.twin)
    ensures Adds(CountsOf(pass, pos, ps, outcome, s, d), v)
  {
    SideCounted(pass, pos, ps.src, v.looksSrc, v.skipsSrc);
    SideCounted(pass, pos, ps.dst, v.looksDst, v.skipsDst);
    OutcomeCounted(outcome, s, d, v.loop, v.twin);
    AddedTogether(SideChecks(pass, pos, ps.src), SideChecks(pass, pos, ps.dst), OutcomeCounts(outcome, s, d), v);
  }

  /** One turn adds to each counter what its name says. */
  lemma TurnCounted(f: Folding, g: Graph, pass: Pass, rn: Uuid)
    requires rn in g.edges
    ensures Adds(StepCounts(f, g, pass, rn), SeenIn(f, g, pass, rn))
  {
    var found, ps := Phase1(f, g, pass, rn), g.edges[rn].pointers;
    ChecksIs(pass, g, ps.src);
    ChecksIs(pass, g, ps.dst);
    TurnFinds(f, g, pass, rn);
    JudgedAs(f, g, pass, rn);
    CountedAs(f, pass, g.Position(pass.source), ps, Judge(found.g, rn, found.src, found.dst), found.src, found.dst,
              SeenIn(f, g, pass, rn));
  }

  // Over the turns of a pass.

  /** How many of the first turns do something. */
  ghost function Often(n: nat, does: nat -> bool): nat {
    |set i: nat | i < n && does(i)|
  }

  lemma OnceMore(n: nat, does: nat -> bool)
    ensures Often(n + 1, does) == Often(n, does) + if does(n) then 1 else 0
  {
    var before, after := set i: nat | i < n && does(i), set i: nat | i < n + 1 && does(i);
    assert n !in before;
    assert after == if does(n) then before + {n} else before;
  }

  /** Over the turns whose candidate is still there. */
  ghost function Over(n: nat, turns: nat -> Option<Seen>, does: Seen -> bool): nat {
    Often(n, (i: nat) => turns(i).Some? && does(turns(i).value))
  }

  lemma OverMore(n: nat, turns: nat -> Option<Seen>, does: Seen -> bool)
    ensures Over(n + 1, turns, does)
            == Over(n, turns, does) + if turns(n).Some? && does(turns(n).value) then 1 else 0
  {
    OnceMore(n, (i: nat) => turns(i).Some? && does(turns(i).value));
  }

  ghost function InState(n: nat, turns: nat -> Option<Seen>, state: BindingState): nat {
    Over(n, turns, (v: Seen) => v.src == Some(state)) + Over(n, turns, (v: Seen) => v.dst == Some(state))
  }

  /** Each counter is the number of turns, or of turns and sides, that its name says. */
  ghost predicate Counted(c: RebindCounts, n: nat, turns: nat -> Option<Seen>) {
    && c.checked == Over(n, turns, (v: Seen) => v.looksSrc) + Over(n, turns, (v: Seen) => v.looksDst)
    && c.skipped == Over(n, turns, (v: Seen) => v.skipsSrc) + Over(n, turns, (v: Seen) => v.skipsDst)
    && c.selfLoops == Over(n, turns, (v: Seen) => v.loop)
    && c.duplicates == Over(n, turns, (v: Seen) => v.twin)
    && c.bound == InState(n, turns, Bound) && c.unbound == InState(n, turns, Unbound)
    && c.ambiguous == InState(n, turns, Ambiguous)
  }

  lemma InStateMore(n: nat, turns: nat -> Option<Seen>, state: BindingState)
    ensures InState(n + 1, turns, state)
            == InState(n, turns, state)
               + if turns(n).None? then 0
                 else Tally(turns(n).value.src == Some(state), turns(n).value.dst == Some(state))
  {
    OverMore(n, turns, (v: Seen) => v.src == Some(state));
    OverMore(n, turns, (v: Seen) => v.dst == Some(state));
  }

  lemma SidesMore(n: nat, turns: nat -> Option<Seen>)
    ensures Over(n + 1, turns, (v: Seen) => v.looksSrc) + Over(n + 1, turns, (v: Seen) => v.looksDst)
            == Over(n, turns, (v: Seen) => v.looksSrc) + Over(n, turns, (v: Seen) => v.looksDst)
               + if turns(n).None? then 0 else Tally(turns(n).value.looksSrc, turns(n).value.looksDst)
    ensures Over(n + 1, turns, (v: Seen) => v.skipsSrc) + Over(n + 1, turns, (v: Seen) => v.skipsDst)
            == Over(n, turns, (v: Seen) => v.skipsSrc) + Over(n, turns, (v: Seen) => v.skipsDst)
               + if turns(n).None? then 0 else Tally(turns(n).value.skipsSrc, turns(n).value.skipsDst)
    ensures Over(n + 1, turns, (v: Seen) => v.loop)
            == Over(n, turns, (v: Seen) => v.loop) + if turns(n).None? then 0 else Tally(turns(n).value.loop, false)
    ensures Over(n + 1, turns, (v: Seen) => v.twin)
            == Over(n, turns, (v: Seen) => v.twin) + if turns(n).None? then 0 else Tally(turns(n).value.twin, false)
  {
    OverMore(n, turns, (v: Seen) => v.looksSrc);
    OverMore(n, turns, (v: Seen) => v.looksDst);
    OverMore(n, turns, (v: Seen) => v.skipsSrc);
    OverMore(n, turns, (v: Seen) => v.skipsDst);
    OverMore(n, turns, (v: Seen) => v.loop);
    OverMore(n, turns, (v: Seen) => v.twin);
  }

  lemma CountedStep(c: RebindCounts, n: nat, turns: nat -> Option<Seen>, d: RebindCounts)
    requires Counted(c, n, turns) && turns(n).Some? && Adds(d, turns(n).value)
    ensures Counted(c.Plus(d), n + 1, turns)
  {
    SidesMore(n, turns);
    InStateMore(n, turns, Bound);
    InStateMore(n, turns, Unbound);
    InStateMore(n, turns, Ambiguous);
  }

  lemma CountedSkip(c: RebindCounts, n: nat, turns: nat -> Option<Seen>)
    requires Counted(c, n, turns) && turns(n).None?
    ensures Counted(c, n + 1, turns)
  {
    SidesMore(n, turns);
    InStateMore(n, turns, Bound);
    InStateMore(n, turns, Unbound);
    InStateMore(n, turns, Ambiguous);
  }

  /** What is seen when the turn of each candidate comes. */
  ghost function TurnsOf(f: Folding, g: Graph, pass: Pass, order: seq<Uuid>): nat -> Option<Seen> {
    (i: nat) =>
      if i < |order| && order[i] in Steps(f, g, pass, order[..i]).edges
      then Some(SeenIn(f, Steps(f, g, pass, order[..i]), pass, order[i])) else None
  }

  lemma CountsOneMore(f: Folding, g: Graph, pass: Pass, order: seq<Uuid>, m: nat)
    requires m < |order|
    ensures var before := Steps(f, g, pass, order[..m]);
            PassCounts(f, g, pass, order[..m + 1])
            == if order[m] in before.edges
               then PassCounts(f, g, pass, order[..m]).Plus(StepCounts(f, before, pass, order[m]))
               else PassCounts(f, g, pass, order[..m])
  {
    assert order[..m + 1][..m] == order[..m];
  }

  lemma OneTurnMore(f: Folding, g: Graph, pass: Pass, order: seq<Uuid>, m: nat)
    requires m < |order|
    ensures var c, c' := PassCounts(f, g, pass, order[..m]), PassCounts(f, g, pass, order[..m + 1]);
            var turn := TurnsOf(f, g, pass, order)(m);
            && (turn.None? ==> c' == c)
            && (turn.Some? ==> exists d :: Adds(d, turn.value) && c' == c.Plus(d))
  {
    var before := Steps(f, g, pass, order[..m]);
    CountsOneMore(f, g, pass, order, m);
    if order[m] in before.edges {
      TurnCounted(f, before, pass, order[m]);
    }
  }

  lemma NextTurnCounted(turns: nat -> Option<Seen>, m: nat, c: RebindCounts, c': RebindCounts)
    requires Counted(c, m, turns)
    requires turns(m).None? ==> c' == c
    requires turns(m).Some? ==> exists d :: Adds(d, turns(m).value) && c' == c.Plus(d)
    ensures Counted(c', m + 1, turns)
  {
    if turns(m).Some? {
      var d :| Adds(d, turns(m).value) && c' == c.Plus(d);
      CountedStep(c, m, turns, d);
    } else {
      CountedSkip(c, m, turns);
    }
  }

  lemma OneMoreCounted(f: Folding, g: Graph, pass: Pass, order: seq<Uuid>, m: nat)
    requires m < |order| && Counted(PassCounts(f, g, pass, order[..m]), m, TurnsOf(f, g, pass, order))
    ensures Counted(PassCounts(f, g, pass, order[..m + 1]), m + 1, TurnsOf(f, g, pass, order))
  {
    OneTurnMore(f, g, pass, order, m);
    NextTurnCounted(TurnsOf(f, g, pass, order), m, PassCounts(f, g, pass, order[..m]),
                    PassCounts(f, g, pass, order[..m + 1]));
  }

  lemma {:induction false} FirstTurnsCounted(f: Folding, g: Graph, pass: Pass, order: seq<Uuid>, n: nat)
    requires n <= |order|
    ensures Counted(PassCounts(f, g, pass, order[..n]), n, TurnsOf(f, g, pass, order))
  {
    if n == 0 {
      assert PassCounts(f, g, pass, order[..0]) == NO_COUNTS;
      NoneYet(TurnsOf(f, g, pass, order));
    } else {
      FirstTurnsCounted(f, g, pass, order, n - 1);
      OneMoreCounted(f, g, pass, order, n - 1);
    }
  }

  lemma NeverYet(does: nat -> bool)
    ensures Often(0, does) == 0
  {
    assert (set i: nat | i < 0 && does(i)) == {};
  }

  lemma NoneYet(turns: nat -> Option<Seen>)
    ensures Counted(NO_COUNTS, 0, turns)
  {
    forall does: nat -> bool
      ensures Often(0, does) == 0
    {
      NeverYet(does);
    }
  }

  /** The counters of a pass, over its turns. */
  lemma PassCounted(f: Folding, g: Graph, pass: Pass, order: seq<Uuid>)
    ensures Counted(PassCounts(f, g, pass, order), |order|, TurnsOf(f, g, pass, order))
  {
    FirstTurnsCounted(f, g, pass, order, |order|);
    assert order[..|order|] == order;
  }
}
