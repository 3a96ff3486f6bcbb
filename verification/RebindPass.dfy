/** The rebind pass as it runs: the loop over the candidates with its three phases, the counters, and
  * the mutations bucketed by the group that owns each row. */
module RebindPass {
  import opened Common
  import opened PropertyGraph
  import opened NameLookup
  import opened NameQueries
  import opened PointerResolution
  import opened Rebind
  import opened RebindInvariants
  import opened Store

  datatype RebindCounts = RebindCounts(
    checked: nat, bound: nat, unbound: nat, ambiguous: nat,
    selfLoops: nat, duplicates: nat, skipped: nat)
  {
    function Plus(c: RebindCounts): RebindCounts {
      RebindCounts(checked + c.checked, bound + c.bound, unbound + c.unbound, ambiguous + c.ambiguous,
                   selfLoops + c.selfLoops, duplicates + c.duplicates, skipped + c.skipped)
    }
  }

  const NO_COUNTS := RebindCounts(0, 0, 0, 0, 0, 0, 0)

  type GroupedMutations = map<GroupId, seq<Mutation>>

  // What is counted.

  function One(b: bool): nat {
    if b then 1 else 0
  }

  function SideChecks(pass: Pass, pos: Option<nat>, p: Option<Pointer>): RebindCounts {
    NO_COUNTS.(checked := One(Checks(pass, pos, p)), skipped := One(Points(pass, p) && Gated(pass, pos, p.value)))
  }

  function SideState(r: Option<Resolution>): RebindCounts {
    if r.None? then NO_COUNTS
    else NO_COUNTS.(bound := One(r.value.state.Bound?), unbound := One(r.value.state.Unbound?),
                    ambiguous := One(r.value.state.Ambiguous?))
  }

  function OutcomeCounts(outcome: Outcome, s: Option<Resolution>, d: Option<Resolution>): RebindCounts {
    match outcome
    case Untouched => NO_COUNTS
    case SelfLooped => NO_COUNTS.(selfLoops := 1)
    case Duplicate => NO_COUNTS.(duplicates := 1)
    case Survives => SideState(s).Plus(SideState(d))
  }

  function StepCounts(f: Folding, g: Graph, pass: Pass, rn: Uuid): RebindCounts
    requires rn in g.edges
  {
    var pos, ps, found := g.Position(pass.source), g.edges[rn].pointers, Phase1(f, g, pass, rn);
    CountsOf(pass, pos, ps, Judge(found.g, rn, found.src, found.dst), found.src, found.dst)
  }

  function CountsOf(pass: Pass, pos: Option<nat>, ps: Pointers, outcome: Outcome,
                    s: Option<Resolution>, d: Option<Resolution>): RebindCounts
  {
    SideChecks(pass, pos, ps.src).Plus(SideChecks(pass, pos, ps.dst)).Plus(OutcomeCounts(outcome, s, d))
  }

  function PassCounts(f: Folding, g: Graph, pass: Pass, order: seq<Uuid>): RebindCounts {
    if order == [] then NO_COUNTS
    else
      var front, before := order[..|order| - 1], Steps(f, g, pass, order[..|order| - 1]);
      if order[|order| - 1] in before.edges then
        PassCounts(f, g, pass, front).Plus(StepCounts(f, before, pass, order[|order| - 1]))
      else PassCounts(f, g, pass, front)
  }

  /** Every checked pointer ends bound, unbound or ambiguous, or sits on an edge that was invalidated -
    * one or two to an edge. */
  predicate Accounted(c: RebindCounts, checked: nat) {
    && c.bound + c.unbound + c.ambiguous + c.selfLoops + c.duplicates <= checked
    && checked <= c.bound + c.unbound + c.ambiguous + 2 * (c.selfLoops + c.duplicates)
  }

  /** Every pointer that a pass checks is accounted for, and a forced pass skips nothing. */
  lemma {:induction false} CountsAddUp(f: Folding, g: Graph, pass: Pass, order: seq<Uuid>)
    ensures var c := PassCounts(f, g, pass, order); Accounted(c, c.checked) && (pass.force ==> c.skipped == 0)
  {
    if order != [] {
      var front, last := order[..|order| - 1], order[|order| - 1];
      CountsAddUp(f, g, pass, front);
      var before := Steps(f, g, pass, front);
      if last in before.edges {
        StepCountsAddUp(f, before, pass, last);
        TotalsAddUp(pass, PassCounts(f, g, pass, front), StepCounts(f, before, pass, last));
      }
    }
  }

  lemma TotalsAddUp(pass: Pass, c: RebindCounts, d: RebindCounts)
    requires Accounted(c, c.checked) && (pass.force ==> c.skipped == 0)
    requires Accounted(d, d.checked) && (pass.force ==> d.skipped == 0)
    ensures Accounted(c.Plus(d), c.Plus(d).checked) && (pass.force ==> c.Plus(d).skipped == 0)
  {
  }

  lemma AccountedAdds(a: RebindCounts, m: nat, b: RebindCounts, n: nat)
    requires Accounted(a, m) && Accounted(b, n)
    ensures Accounted(a.Plus(b), m + n)
  {
  }

  lemma StepCountsAddUp(f: Folding, g: Graph, pass: Pass, rn: Uuid)
    requires rn in g.edges
    ensures var c := StepCounts(f, g, pass, rn); Accounted(c, c.checked) && (pass.force ==> c.skipped == 0)
  {
    var found := Phase1(f, g, pass, rn);
    CountsOfAddUp(pass, g.Position(pass.source), g.edges[rn].pointers, Judge(found.g, rn, found.src, found.dst),
                  found.src, found.dst);
    if pass.force {
      ForcedSkipsNothing(pass, g.Position(pass.source), g.edges[rn].pointers, Judge(found.g, rn, found.src, found.dst),
                         found.src, found.dst);
    }
  }

  lemma CountsOfAddUp(pass: Pass, pos: Option<nat>, ps: Pointers, outcome: Outcome,
                      s: Option<Resolution>, d: Option<Resolution>)
    requires outcome.Untouched? <==> s.None? && d.None?
    requires (s.Some? <==> Checks(pass, pos, ps.src)) && (d.Some? <==> Checks(pass, pos, ps.dst))
    ensures var c := CountsOf(pass, pos, ps, outcome, s, d); Accounted(c, c.checked)
  {
    OutcomeAddsUp(outcome, s, d);
    SideAddsUp(pass, pos, ps.src, s);
    SideAddsUp(pass, pos, ps.dst, d);
    Accounts(SideChecks(pass, pos, ps.src), s, SideChecks(pass, pos, ps.dst), d, OutcomeCounts(outcome, s, d));
  }

  lemma ForcedSkipsNothing(pass: Pass, pos: Option<nat>, ps: Pointers, outcome: Outcome,
                           s: Option<Resolution>, d: Option<Resolution>)
    requires pass.force
    ensures CountsOf(pass, pos, ps, outcome, s, d).skipped == 0
  {
    ForcedSide(pass, pos, ps.src);
    ForcedSide(pass, pos, ps.dst);
    OutcomeSkipsNothing(outcome, s, d);
    NoneSkipped(SideChecks(pass, pos, ps.src), SideChecks(pass, pos, ps.dst), OutcomeCounts(outcome, s, d));
  }

  lemma ForcedSide(pass: Pass, pos: Option<nat>, p: Option<Pointer>)
    requires pass.force
    ensures SideChecks(pass, pos, p).skipped == 0
  {
  }

  lemma OutcomeSkipsNothing(outcome: Outcome, s: Option<Resolution>, d: Option<Resolution>)
    ensures OutcomeCounts(outcome, s, d).skipped == 0
  {
  }

  lemma NoneSkipped(a: RebindCounts, b: RebindCounts, c: RebindCounts)
    requires a.skipped == 0 && b.skipped == 0 && c.skipped == 0
    ensures a.Plus(b).Plus(c).skipped == 0
  {
  }

  predicate OnlyChecks(c: RebindCounts, n: nat) {
    c.checked == n && c.bound == c.unbound == c.ambiguous == c.selfLoops == c.duplicates == 0
  }

  lemma SideAddsUp(pass: Pass, pos: Option<nat>, p: Option<Pointer>, r: Option<Resolution>)
    requires r.Some? <==> Checks(pass, pos, p)
    ensures OnlyChecks(SideChecks(pass, pos, p), One(r.Some?))
  {
  }

  lemma Accounts(a: RebindCounts, s: Option<Resolution>, b: RebindCounts, d: Option<Resolution>, outcome: RebindCounts)
    requires OnlyChecks(a, One(s.Some?)) && OnlyChecks(b, One(d.Some?))
    requires outcome.checked == outcome.skipped == 0 && Accounted(outcome, One(s.Some?) + One(d.Some?))
    ensures var c := a.Plus(b).Plus(outcome); Accounted(c, c.checked)
  {
  }

  lemma OutcomeAddsUp(outcome: Outcome, s: Option<Resolution>, d: Option<Resolution>)
    requires outcome.Untouched? <==> s.None? && d.None?
    ensures var c := OutcomeCounts(outcome, s, d);
            c.checked == c.skipped == 0 && Accounted(c, One(s.Some?) + One(d.Some?))
  {
    if outcome.Survives? {
      StateAddsUp(s);
      StateAddsUp(d);
      AccountedAdds(SideState(s), One(s.Some?), SideState(d), One(d.Some?));
    }
  }

  lemma StateAddsUp(r: Option<Resolution>)
    ensures var c := SideState(r); c.checked == c.skipped == 0 && Accounted(c, One(r.Some?))
  {
  }

  // What is written where.

  /** Only row `rn` and entity rows were written in between. */
  ghost predicate Grew(before: seq<Mutation>, after: seq<Mutation>, rn: Uuid) {
    && |before| <= |after| && after[..|before|] == before
    && forall i :: |before| <= i < |after| ==> after[i].EntityWrite? || after[i] == EdgeWrite(rn)
  }

  ghost predicate Wrote(before: seq<Mutation>, after: seq<Mutation>, rn: Uuid) {
    Grew(before, after, rn) && exists i :: |before| <= i < |after| && after[i] == EdgeWrite(rn)
  }

  /** A write to row `rn` is logged unless nothing but entities changed. */
  ghost predicate Logged(g: Graph, g': Graph, before: seq<Mutation>, after: seq<Mutation>, rn: Uuid) {
    Grew(before, after, rn) && (g' == g.(entities := g'.entities) || Wrote(before, after, rn))
  }

  lemma GrewTwice(a: seq<Mutation>, b: seq<Mutation>, c: seq<Mutation>, rn: Uuid)
    requires Grew(a, b, rn) && Grew(b, c, rn)
    ensures Grew(a, c, rn)
    ensures Wrote(a, b, rn) || Wrote(b, c, rn) ==> Wrote(a, c, rn)
  {
    assert c[..|a|] == b[..|a|];
    forall i | |a| <= i < |b|
      ensures c[i] == b[i]
    {
      assert c[..|b|][i] == b[i];
    }
  }

  /** The row, its hops or its rel differ. */
  ghost predicate RowChanged(g: Graph, g': Graph, rn: Uuid) {
    rn in g.edges ==>
      || rn !in g'.edges || g'.edges[rn] != g.edges[rn]
      || g'.Hop(rn, Src) != g.Hop(rn, Src) || g'.Hop(rn, Dst) != g.Hop(rn, Dst)
      || g'.Direct(rn) != g.Direct(rn)
  }

  /** A bucket holds edge writes to its own group's rows only, apart from writes that an earlier caller
    * had left pending. */
  ghost predicate BucketsOwn(g: Graph, pending: seq<Mutation>, grouped: GroupedMutations) {
    forall gid, rn :: gid in grouped && EdgeWrite(rn) in grouped[gid] ==>
      EdgeWrite(rn) in pending || (rn in g.edges && g.edges[rn].group == gid)
  }

  ghost predicate Recorded(g: Graph, grouped: GroupedMutations, rn: Uuid)
    requires rn in g.edges
  {
    g.edges[rn].group in grouped && EdgeWrite(rn) in grouped[g.edges[rn].group]
  }

  /** Every row that changed has a write in its own group's bucket. */
  ghost predicate BucketsComplete(g: Graph, g': Graph, grouped: GroupedMutations) {
    forall rn <- g.edges :: RowChanged(g, g', rn) ==> Recorded(g, grouped, rn)
  }

  ghost predicate InSomeBucket(grouped: GroupedMutations, m: Mutation) {
    exists gid :: gid in grouped && m in grouped[gid]
  }

  /** Every entity row that was healed has a write in the bucket of some candidate's group. */
  ghost predicate HealsRecorded(ents: Entities, ents': Entities, grouped: GroupedMutations) {
    forall u <- ents :: u in ents' && (ents'[u] != ents[u] ==> InSomeBucket(grouped, EntityWrite(u)))
  }

  /** What was in the log at the start is there still, or in a bucket. */
  ghost predicate PendingKept(pending: seq<Mutation>, log: seq<Mutation>, grouped: GroupedMutations) {
    forall m <- pending :: m in log || InSomeBucket(grouped, m)
  }

  /** `drain_mutations_into`: what has been logged since the last drain goes to one group. */
  function Drain(grouped: GroupedMutations, gid: GroupId, drained: seq<Mutation>): GroupedMutations {
    if drained == [] then grouped
    else grouped[gid := (if gid in grouped then grouped[gid] else []) + drained]
  }

  lemma DrainKeeps(g: Graph, pending: seq<Mutation>, grouped: GroupedMutations, rn: Uuid,
                   log: seq<Mutation>, drained: seq<Mutation>)
    requires rn in g.edges && BucketsOwn(g, pending, grouped) && Grew(log, drained, rn) && log in {[], pending}
    ensures var grouped' := Drain(grouped, g.edges[rn].group, drained);
            && BucketsOwn(g, pending, grouped')
            && (forall q <- g.edges :: Recorded(g, grouped, q) ==> Recorded(g, grouped', q))
            && (Wrote(log, drained, rn) ==> Recorded(g, grouped', rn))
  {
    var gid := g.edges[rn].group;
    var grouped' := Drain(grouped, gid, drained);
    var had := if gid in grouped then grouped[gid] else [];
    forall id, q | id in grouped' && EdgeWrite(q) in grouped'[id]
      ensures EdgeWrite(q) in pending || (q in g.edges && g.edges[q].group == id)
    {
      if id == gid && EdgeWrite(q) !in had {
        assert EdgeWrite(q) in drained;
        GrewFrom(log, drained, rn, q);
      }
    }
  }

  lemma DrainHolds(grouped: GroupedMutations, gid: GroupId, drained: seq<Mutation>, m: Mutation)
    ensures InSomeBucket(grouped, m) || m in drained ==> InSomeBucket(Drain(grouped, gid, drained), m)
  {
    var grouped' := Drain(grouped, gid, drained);
    if m in drained {
      assert m in grouped'[gid];
    } else if id :| id in grouped && m in grouped[id] {
      assert m in grouped'[id];
    }
  }

  /** A turn whose log is drained drops nothing: neither what was pending nor what it healed. */
  lemma DrainDropsNothing(ents: Entities, e0: Entities, e1: Entities, pending: seq<Mutation>,
                          log: seq<Mutation>, drained: seq<Mutation>, grouped: GroupedMutations, gid: GroupId)
    requires HealsRecorded(ents, e0, grouped) && PendingKept(pending, log, grouped)
    requires HealsLogged(e0, e1, log, drained) && drained[..|log|] == log
    ensures HealsRecorded(ents, e1, Drain(grouped, gid, drained))
    ensures PendingKept(pending, [], Drain(grouped, gid, drained))
    ensures drained == log ==> HealsRecorded(ents, e1, grouped)
  {
    forall u <- ents | e1[u] != ents[u]
      ensures InSomeBucket(Drain(grouped, gid, drained), EntityWrite(u))
      ensures drained == log ==> InSomeBucket(grouped, EntityWrite(u))
    {
      DrainHolds(grouped, gid, drained, EntityWrite(u));
      if e1[u] != e0[u] {
        assert LoggedSince(log, drained, u);
      }
    }
    forall m <- pending
      ensures InSomeBucket(Drain(grouped, gid, drained), m)
    {
      DrainHolds(grouped, gid, drained, m);
      if m in log {
        var i :| 0 <= i < |log| && log[i] == m;
        assert drained[..|log|][i] == drained[i];
      }
    }
  }

  lemma GrewFrom(before: seq<Mutation>, after: seq<Mutation>, rn: Uuid, q: Uuid)
    requires Grew(before, after, rn) && EdgeWrite(q) in after
    ensures EdgeWrite(q) in before || q == rn
  {
    var i :| 0 <= i < |after| && after[i] == EdgeWrite(q);
    if i < |before| {
      assert after[..|before|][i] == before[i];
    }
  }

  // The pass.

  /** Phase 1 for one side. */
  method CheckSide(db: Db, pass: Pass, pos: Option<nat>, p: Option<Pointer>)
    returns (r: Option<Resolution>, c: RebindCounts)
    modifies db`entities, db`mutations
    ensures r == Find(db.fold, old(db.entities), pass, pos, p)
    ensures db.entities == FindWrites(db.fold, old(db.entities), pass, pos, p)
    ensures c == SideChecks(pass, pos, p)
    ensures OnlyEntityWrites(old(db.mutations), db.mutations)
    ensures HealsLogged(old(db.entities), db.entities, old(db.mutations), db.mutations)
    ensures r.None? ==> db.mutations == old(db.mutations)
  {
    r, c := None, NO_COUNTS;
    if p.None? || p.value.source != pass.source {
      return;
    }
    if !pass.force && p.value.state.Bound? {
      if p.value.boundAt.Some? && pos.Some? && p.value.boundAt.value >= pos.value {
        c := c.(skipped := 1);
        return;
      }
    }
    c := c.(checked := 1);
    var resolution := ResolveEndpointKind(db, pass.source, p.value.name, p.value.kind);
    r := Some(resolution);
  }

  /** Phase 3 for one side's hop. */
  method MoveHop(db: Db, rn: Uuid, side: Side, r: Option<Resolution>) returns (changed: bool)
    modifies db`src, db`dst, db`mutations
    ensures db.View() == SetHop(old(db.View()), rn, side, r)
    ensures changed == HopMoves(old(db.View()), rn, side, r)
    ensures Grew(old(db.mutations), db.mutations, rn)
  {
    if r.None? {
      return false;
    }
    var actual := db.View().Hop(rn, side);
    if actual == r.value.uuid {
      return false;
    }
    if actual.Some? {
      db.DeleteHop(rn, side);
    }
    if r.value.uuid.Some? {
      db.CreateHop(rn, side, r.value.uuid.value);
    }
    changed := true;
  }

  method ResyncDirect(db: Db, rn: Uuid)
    modifies db`direct, db`mutations
    ensures db.View() == SyncDirect(old(db.View()), rn)
    ensures Grew(old(db.mutations), db.mutations, rn)
  {
    db.DeleteDirect(rn);
    if db.View().Complete(rn) {
      db.CreateDirect(rn, db.src[rn], db.dst[rn]);
    }
  }

  lemma SideMovesAlone(g: Graph, rn: Uuid, s: Option<Resolution>)
    ensures SetHop(g, rn, Src, s).Hop(rn, Dst) == g.Hop(rn, Dst)
    ensures SetHop(g, rn, Src, s).edges == g.edges
  {
  }

  /** Phase 3: the edge survives. */
  method ApplyResolutions(db: Db, rn: Uuid, s: Option<Resolution>, d: Option<Resolution>, pos: Option<nat>)
    returns (c: RebindCounts)
    requires rn in db.edges
    modifies db`src, db`dst, db`edges, db`direct, db`mutations
    ensures db.View() == Survive(old(db.View()), rn, s, d, pos)
    ensures c == SideState(s).Plus(SideState(d))
    ensures Wrote(old(db.mutations), db.mutations, rn)
  {
    ghost var g, m0 := db.View(), db.mutations;
    SideMovesAlone(g, rn, s);
    var srcMoves := MoveHop(db, rn, Src, s);
    ghost var m1 := db.mutations;
    var dstMoves := MoveHop(db, rn, Dst, d);
    ghost var m2 := db.mutations;
    GrewTwice(m0, m1, m2, rn);
    db.UpdatePointers(rn, NewPointers(db.edges[rn].pointers, s, d, pos));
    ghost var m3 := db.mutations;
    assert m3[|m2|] == EdgeWrite(rn);
    assert Wrote(m2, m3, rn);
    GrewTwice(m0, m2, m3, rn);
    if srcMoves || dstMoves {
      ResyncDirect(db, rn);
      GrewTwice(m0, m3, db.mutations, rn);
    }
    c := SideState(s).Plus(SideState(d));
  }

  /** Phase 2: the self-loop and duplicate check on the fully prospective pair. */
  method JudgeCandidate(db: Db, rn: Uuid, s: Option<Resolution>, d: Option<Resolution>) returns (outcome: Outcome)
    requires rn in db.edges
    ensures outcome == Judge(db.View(), rn, s, d)
  {
    if s.None? && d.None? {
      return Untouched;
    }
    var g, row := db.View(), db.edges[rn];
    var a, b := Prospective(s, g.Hop(rn, Src)), Prospective(d, g.Hop(rn, Dst));
    if !(Changed(s, row.pointers.src) || Changed(d, row.pointers.dst)) || a.None? || b.None? {
      return Survives;
    }
    if a == b {
      return SelfLooped;
    }
    var twin := g.HasDirectedEdge(a.value, b.value, row.name, row.group);
    outcome := if twin then Duplicate else Survives;
  }

  function SettleAs(g: Graph, rn: Uuid, outcome: Outcome, s: Option<Resolution>, d: Option<Resolution>,
                    pos: Option<nat>, ts: Timestamp): Graph
    requires rn in g.edges
  {
    match outcome
    case Untouched => g
    case SelfLooped | Duplicate => g.Invalidate(rn, ts)
    case Survives => Survive(g, rn, s, d, pos)
  }

  /** Phase 3, and the two ways out of phase 2. */
  method ActOn(db: Db, rn: Uuid, outcome: Outcome, s: Option<Resolution>, d: Option<Resolution>,
               pos: Option<nat>, ts: Timestamp)
    returns (c: RebindCounts)
    requires rn in db.edges
    modifies db`src, db`dst, db`edges, db`direct, db`mutations
    ensures db.View() == SettleAs(old(db.View()), rn, outcome, s, d, pos, ts)
    ensures c == OutcomeCounts(outcome, s, d)
    ensures Logged(old(db.View()), db.View(), old(db.mutations), db.mutations, rn)
    ensures outcome.Untouched? ==> db.mutations == old(db.mutations)
  {
    match outcome {
      case Untouched =>
        c := NO_COUNTS;
      case SelfLooped =>
        InvalidateCandidate(db, rn, ts);
        c := NO_COUNTS.(selfLoops := 1);
      case Duplicate =>
        InvalidateCandidate(db, rn, ts);
        c := NO_COUNTS.(duplicates := 1);
      case Survives =>
        c := ApplyResolutions(db, rn, s, d, pos);
    }
  }

  method SettleCandidate(db: Db, rn: Uuid, s: Option<Resolution>, d: Option<Resolution>, pos: Option<nat>,
                         ts: Timestamp)
    returns (c: RebindCounts)
    requires rn in db.edges
    modifies db`src, db`dst, db`edges, db`direct, db`mutations
    ensures db.View() == Settle(old(db.View()), rn, s, d, pos, ts)
    ensures c == OutcomeCounts(Judge(old(db.View()), rn, s, d), s, d)
    ensures Logged(old(db.View()), db.View(), old(db.mutations), db.mutations, rn)
    ensures s.None? && d.None? ==> db.mutations == old(db.mutations)
  {
    var outcome := JudgeCandidate(db, rn, s, d);
    c := ActOn(db, rn, outcome, s, d, pos, ts);
  }

  method InvalidateCandidate(db: Db, rn: Uuid, ts: Timestamp)
    modifies db`edges, db`mutations
    ensures db.View() == old(db.View()).Invalidate(rn, ts)
    ensures Wrote(old(db.mutations), db.mutations, rn)
  {
    db.InvalidateEdge(rn, ts);
    assert db.mutations[|old(db.mutations)|] == EdgeWrite(rn);
  }

  /** One candidate, and whether any side of it was re-checked. */
  method RebindCandidate(db: Db, pass: Pass, rn: Uuid) returns (c: RebindCounts, checked: bool)
    requires rn in db.edges
    modifies db
    ensures db.View() == Step(db.fold, old(db.View()), pass, rn)
    ensures c == StepCounts(db.fold, old(db.View()), pass, rn)
    ensures Logged(old(db.View()), db.View(), old(db.mutations), db.mutations, rn)
    ensures HealsLogged(old(db.entities), db.entities, old(db.mutations), db.mutations)
    ensures var found := Phase1(db.fold, old(db.View()), pass, rn); checked <==> found.src.Some? || found.dst.Some?
    ensures !checked ==> db.mutations == old(db.mutations)
  {
    ghost var g, m0 := db.View(), db.mutations;
    ghost var found := Phase1(db.fold, g, pass, rn);
    var pos, ps := db.View().Position(pass.source), db.edges[rn].pointers;
    ghost var e0 := db.entities;
    var s, c1 := CheckSide(db, pass, pos, ps.src);
    ghost var m1, e1 := db.mutations, db.entities;
    var d, c2 := CheckSide(db, pass, pos, ps.dst);
    ghost var m2, e2 := db.mutations, db.entities;
    LoggedTwice(e0, e1, e2, m0, m1, m2);
    assert db.View() == found.g && s == found.src && d == found.dst;
    GrewTwice(m0, m1, m2, rn);
    var c3 := SettleCandidate(db, rn, s, d, pos, pass.ts);
    GrewTwice(m0, m2, db.mutations, rn);
    LoggedTwice(e0, e2, db.entities, m0, m2, db.mutations);
    c, checked := c1.Plus(c2).Plus(c3), s.Some? || d.Some?;
  }

  /** The candidates, in whatever order the engine lists them. */
  method ListCandidates(db: Db) returns (order: seq<Uuid>)
    ensures Candidates(db.View(), order)
  {
    order := [];
    var todo := set rn | rn in db.edges && db.edges[rn].invalidAt.None? && !db.edges[rn].pointers.Empty();
    ghost var all := todo;
    while todo != {}
      invariant todo <= all
      invariant forall rn :: rn in order <==> rn in all - todo
      invariant forall i, j :: 0 <= i < j < |order| ==> order[i] != order[j]
      decreases todo
    {
      var rn :| rn in todo;
      ghost var before := order;
      todo := todo - {rn};
      order := order + [rn];
      assert forall q :: q in order <==> q in before || q == rn;
    }
  }

  /** The graph, the counts and the buckets after the first candidates; the log is empty, or still what it
    * was when the pass began. */
  ghost predicate Passed(f: Folding, g: Graph, pending: seq<Mutation>, pass: Pass, done: seq<Uuid>,
                         view: Graph, log: seq<Mutation>, counts: RebindCounts, grouped: GroupedMutations) {
    && view == Steps(f, g, pass, done) && counts == PassCounts(f, g, pass, done)
    && log in {[], pending}
    && BucketsOwn(g, pending, grouped) && BucketsComplete(g, view, grouped)
    && HealsRecorded(g.entities, view.entities, grouped) && PendingKept(pending, log, grouped)
  }

  lemma PassedStep(f: Folding, g: Graph, pending: seq<Mutation>, pass: Pass, done: seq<Uuid>, view: Graph,
                   log: seq<Mutation>, counts: RebindCounts, grouped: GroupedMutations, rn: Uuid, view': Graph,
                   drained: seq<Mutation>)
    requires WellFormed(g) && rn in g.edges && Passed(f, g, pending, pass, done, view, log, counts, grouped)
    requires rn in view.edges && view' == Step(f, view, pass, rn)
    requires Logged(view, view', log, drained, rn) && HealsLogged(view.entities, view'.entities, log, drained)
    ensures Passed(f, g, pending, pass, done + [rn], view', [], counts.Plus(StepCounts(f, view, pass, rn)),
                   Drain(grouped, g.edges[rn].group, drained))
    ensures drained == log ==>
              Passed(f, g, pending, pass, done + [rn], view', log, counts.Plus(StepCounts(f, view, pass, rn)), grouped)
  {
    assert (done + [rn])[..|done|] == done;
    StepsKeep(f, g, pass, done);
    StepKeeps(f, view, pass, rn);
    DrainKeeps(g, pending, grouped, rn, log, drained);
    DrainDropsNothing(g.entities, view.entities, view'.entities, pending, log, drained, grouped, g.edges[rn].group);
    forall q <- g.edges | RowChanged(g, view', q)
      ensures Recorded(g, Drain(grouped, g.edges[rn].group, drained), q)
      ensures drained == log ==> Recorded(g, grouped, q)
    {
      ChangedNowOrBefore(g, view, view', rn, q);
    }
  }

  lemma ChangedNowOrBefore(g: Graph, view: Graph, view': Graph, rn: Uuid, q: Uuid)
    requires q in g.edges && q in view.edges && StepFrame(view, view', rn) && RowChanged(g, view', q)
    ensures RowChanged(g, view, q) || (q == rn && view' != view.(entities := view'.entities))
  {
  }

  lemma {:induction false} GroupKept(f: Folding, g: Graph, pass: Pass, order: seq<Uuid>, rn: Uuid)
    requires WellFormed(g) && rn in g.edges
    ensures var g' := Steps(f, g, pass, order); rn in g'.edges && g'.edges[rn].group == g.edges[rn].group
  {
    if order != [] {
      var front, last := order[..|order| - 1], order[|order| - 1];
      GroupKept(f, g, pass, front, rn);
      StepsKeep(f, g, pass, front);
      StepKeeps(f, Steps(f, g, pass, front), pass, last);
    }
  }

  /** One round of the loop: the candidate, then, if any side of it was re-checked, the drain into its own
    * group's bucket. */
  method NextCandidate(db: Db, pass: Pass, rn: Uuid, counts: RebindCounts, grouped: GroupedMutations,
                       ghost g: Graph, ghost pending: seq<Mutation>, ghost done: seq<Uuid>)
    returns (counts': RebindCounts, grouped': GroupedMutations)
    requires WellFormed(g) && rn in g.edges
    requires Passed(db.fold, g, pending, pass, done, db.View(), db.mutations, counts, grouped)
    modifies db
    ensures Passed(db.fold, g, pending, pass, done + [rn], db.View(), db.mutations, counts', grouped')
  {
    ghost var view, log := db.View(), db.mutations;
    GroupKept(db.fold, g, pass, done, rn);
    var gid := db.edges[rn].group;
    var c, checked := RebindCandidate(db, pass, rn);
    PassedStep(db.fold, g, pending, pass, done, view, log, counts, grouped, rn, db.View(), db.mutations);
    counts', grouped' := counts.Plus(c), grouped;
    if checked {
      var drained := DrainMutations(db);
      grouped' := Drain(grouped, gid, drained);
    }
  }

  method DrainMutations(db: Db) returns (drained: seq<Mutation>)
    modifies db`mutations
    ensures drained == old(db.mutations) && db.mutations == [] && db.View() == old(db.View())
  {
    drained := db.mutations;
    db.mutations := [];
  }

  /** `rebind_pointers_impl`. What an earlier caller left in the log goes to the bucket of the first
    * candidate that is re-checked; if there is none, it stays. */
  method RebindPointersImpl(db: Db, pass: Pass)
    returns (counts: RebindCounts, grouped: GroupedMutations, ghost order: seq<Uuid>)
    requires WellFormed(db.View())
    modifies db
    ensures Candidates(old(db.View()), order)
    ensures db.View() == Steps(db.fold, old(db.View()), pass, order)
    ensures counts == PassCounts(db.fold, old(db.View()), pass, order)
    ensures BucketsOwn(old(db.View()), old(db.mutations), grouped)
    ensures BucketsComplete(old(db.View()), db.View(), grouped)
    ensures HealsRecorded(old(db.entities), db.entities, grouped)
    ensures PendingKept(old(db.mutations), db.mutations, grouped)
    ensures db.mutations in {[], old(db.mutations)}
  {
    ghost var g, pending := db.View(), db.mutations;
    counts, grouped := NO_COUNTS, map[];
    var candidates := ListCandidates(db);
    order := candidates;
    var i := 0;
    while i < |candidates|
      invariant 0 <= i <= |candidates|
      invariant Passed(db.fold, g, pending, pass, order[..i], db.View(), db.mutations, counts, grouped)
    {
      assert g.Active(candidates[i]);
      counts, grouped := NextCandidate(db, pass, candidates[i], counts, grouped, g, pending, order[..i]);
      PrefixStep(order, i);
      i := i + 1;
    }
    assert order[..|order|] == order;
  }

  method RebindPointers(db: Db, source: GroupId, ts: Timestamp)
    returns (counts: RebindCounts, grouped: GroupedMutations, ghost order: seq<Uuid>)
    requires WellFormed(db.View())
    modifies db
    ensures Candidates(old(db.View()), order)
    ensures db.View() == Steps(db.fold, old(db.View()), Pass(source, false, ts), order)
    ensures counts == PassCounts(db.fold, old(db.View()), Pass(source, false, ts), order)
    ensures BucketsOwn(old(db.View()), old(db.mutations), grouped)
    ensures BucketsComplete(old(db.View()), db.View(), grouped)
    ensures HealsRecorded(old(db.entities), db.entities, grouped)
    ensures PendingKept(old(db.mutations), db.mutations, grouped)
  {
    counts, grouped, order := RebindPointersImpl(db, Pass(source, false, ts));
  }

  method RebindPointersForced(db: Db, source: GroupId, ts: Timestamp)
    returns (counts: RebindCounts, grouped: GroupedMutations, ghost order: seq<Uuid>)
    requires WellFormed(db.View())
    modifies db
    ensures Candidates(old(db.View()), order)
    ensures db.View() == Steps(db.fold, old(db.View()), Pass(source, true, ts), order)
    ensures counts == PassCounts(db.fold, old(db.View()), Pass(source, true, ts), order)
    ensures counts.skipped == 0
    ensures BucketsOwn(old(db.View()), old(db.mutations), grouped)
    ensures BucketsComplete(old(db.View()), db.View(), grouped)
    ensures HealsRecorded(old(db.entities), db.entities, grouped)
    ensures PendingKept(old(db.mutations), db.mutations, grouped)
  {
    counts, grouped, order := RebindPointersImpl(db, Pass(source, true, ts));
    CountsAddUp(db.fold, old(db.View()), Pass(source, true, ts), order);
  }
}
