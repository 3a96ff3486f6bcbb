/** `merge_entities`: resolving the canonical and its aliases, refusing what must not be merged,
  * merging the rest in uuid order, and what any sequence of such calls keeps. */
module Corrections {
  import opened Common
  import opened PropertyGraph
  import opened NameLookup
  import opened Forwarding
  import opened UuidOrder
  import opened Store
  import opened MergeEdges

  const DEFAULT_GROUP: GroupId := "liminis"

  datatype MergeParams = MergeParams(
    canonicalUuid: Option<Uuid>,
    canonicalName: Option<Name>,
    aliasUuids: seq<Uuid>,
    aliasNames: seq<Name>,
    mergeAllByName: bool,
    kind: Option<Kind>,
    group: GroupId,
    dryRun: bool)
  {
    function Group(): GroupId {
      if group == "" then DEFAULT_GROUP else group
    }
  }

  datatype MergeError =
    | NoCanonicalGiven
    | NoAliasGiven
    | CanonicalNotFound
    | CanonicalAmbiguous
    | CanonicalMerged
    | CanonicalForeign
    | AliasForeign(uuid: Uuid)
    | AliasNotFound(uuid: Uuid)
    | AliasNameUnmatched(name: Name)
    | KindsDiffer

  /** Warnings that the caller sees but that leave the call successful. */
  predicate Soft(e: MergeError) {
    e.AliasNotFound? || e.AliasNameUnmatched?
  }

  /** What a dry run reports of one alias. */
  datatype AliasInfo = AliasInfo(uuid: Uuid, name: Name, counts: Counts)

  datatype MergeReport = MergeReport(
    success: bool,
    canonical: Option<Uuid>,
    merged: nat,
    skipped: nat,
    counts: Counts,
    errors: set<MergeError>,
    plan: Option<seq<AliasInfo>>)

  // Resolution.

  /** `get_entities_by_name_all`: the exact name, in the group, optionally of one kind. */
  function NamedRows(ents: Entities, name: Name, group: GroupId, kind: Option<Kind>): set<Uuid> {
    set u | u in ents && ents[u].name == name && ents[u].group == group
            && (kind.Some? ==> ents[u].Kind() == kind.value)
  }

  function ActiveNamed(ents: Entities, name: Name, group: GroupId, kind: Option<Kind>): set<Uuid> {
    set u | u in NamedRows(ents, name, group, kind) && !ents[u].merged
  }

  predicate OneKind(ents: Entities, rows: set<Uuid>)
    requires rows <= ents.Keys
  {
    forall u, v | u in rows && v in rows :: ents[u].Kind() == ents[v].Kind()
  }

  datatype Canonical = Accepted(uuid: Uuid) | Refused(error: MergeError, found: Option<Uuid>)

  function FindCanonical(ents: Entities, p: MergeParams): Canonical {
    if p.canonicalUuid.None? && p.canonicalName.None? then Refused(NoCanonicalGiven, None)
    else if p.aliasUuids == [] && p.aliasNames == [] && !p.mergeAllByName then Refused(NoAliasGiven, None)
    else if p.canonicalUuid.Some? then
      if p.canonicalUuid.value in ents then Accepted(p.canonicalUuid.value) else Refused(CanonicalNotFound, None)
    else
      var rows := ActiveNamed(ents, p.canonicalName.value, p.Group(), p.kind);
      if !OneKind(ents, rows) then Refused(CanonicalAmbiguous, None)
      else match First(ents, rows)
           case None => Refused(CanonicalNotFound, None)
           case Some(u) => Accepted(u)
  }

  function ResolveCanonical(ents: Entities, p: MergeParams): (r: Canonical)
    ensures r.Accepted? ==> r.uuid in ents && !ents[r.uuid].merged && ents[r.uuid].group == p.Group()
  {
    var found := FindCanonical(ents, p);
    if found.Refused? then found
    else if ents[found.uuid].merged then Refused(CanonicalMerged, Some(found.uuid))
    else if ents[found.uuid].group != p.Group() then Refused(CanonicalForeign, Some(found.uuid))
    else found
  }

  /** Every row the call names as an alias: by uuid inside the group, by name, or all namesakes of
    * the canonical in its kind. */
  function AliasSet(ents: Entities, p: MergeParams, c: Uuid): set<Uuid>
    requires c in ents
  {
    (set u | u in p.aliasUuids && u in ents && ents[u].group == p.Group() && u != c)
    + (set name, u | name in p.aliasNames && u in NamedRows(ents, name, p.Group(), p.kind) && u != c :: u)
    + (if p.mergeAllByName
       then NamedRows(ents, ents[c].name, p.Group(), Some(ents[c].Kind())) - {c} else {})
  }

  predicate SameKind(ents: Entities, c: Uuid, aliases: set<Uuid>)
    requires c in ents && aliases <= ents.Keys
  {
    forall a | a in aliases :: ents[a].Kind() == ents[c].Kind()
  }

  /** The call gets past every refusal, with `c` as its canonical. */
  predicate Proceeds(ents: Entities, p: MergeParams, c: Uuid) {
    && ResolveCanonical(ents, p) == Accepted(c)
    && AliasSet(ents, p, c) <= ents.Keys
    && SameKind(ents, c, AliasSet(ents, p, c))
  }

  lemma AliasesAreRows(ents: Entities, p: MergeParams, c: Uuid)
    requires ResolveCanonical(ents, p) == Accepted(c)
    ensures AliasSet(ents, p, c) <= ents.Keys && c !in AliasSet(ents, p, c)
    ensures forall a <- AliasSet(ents, p, c) :: ents[a].group == p.Group() == ents[c].group
  {
  }

  // The merge of several aliases.

  /** One alias's turn: the order the engine listed its edges in. */
  datatype Visit = Visit(m: Merge, rows: seq<FullEdge>, split: nat)

  function AfterVisit(g: Graph, v: Visit): Graph {
    if v.m.alias !in g.entities then g
    else Rewritten(g, v.m, v.rows).(entities := Tombstone(g.entities, v.m.alias, v.m.canonical))
  }

  function AfterVisits(g: Graph, visits: seq<Visit>): Graph {
    if visits == [] then g
    else AfterVisit(AfterVisits(g, visits[..|visits| - 1]), visits[|visits| - 1])
  }

  /** Each visit lists the edges of its alias in the graph that the visits before it left. */
  ghost predicate MergeRun(g: Graph, visits: seq<Visit>) {
    visits != [] ==>
      var front, v := visits[..|visits| - 1], visits[|visits| - 1];
      && MergeRun(g, front)
      && v.m.alias in AfterVisits(g, front).entities
      && Listing(AfterVisits(g, front), v.m.alias, v.rows, v.split)
  }

  /** The visits are those of the aliases `todo`, in that order. */
  ghost predicate VisitsOf(visits: seq<Visit>, c: Uuid, todo: seq<Uuid>, group: GroupId, ts: Timestamp) {
    && |visits| == |todo|
    && forall i :: 0 <= i < |visits| ==> visits[i].m == Merge(c, todo[i], group, ts)
  }

  /** Each planned visit lists the edges of its alias in the unchanged graph. */
  ghost predicate PlannedRun(g: Graph, visits: seq<Visit>) {
    forall v <- visits :: Listing(g, v.m.alias, v.rows, v.split)
  }

  function Plus(a: Counts, b: Counts): Counts {
    Counts(a.rewritten + b.rewritten, a.deduped + b.deduped, a.foreignSkipped + b.foreignSkipped)
  }

  /** The counts of a real call: each visit counts in the graph it starts from. */
  ghost function TotalCounts(g: Graph, visits: seq<Visit>): Counts {
    if visits == [] then ZERO
    else
      var front, v := visits[..|visits| - 1], visits[|visits| - 1];
      Plus(TotalCounts(g, front), RealCounts(AfterVisits(g, front), v.m, v.rows))
  }

  /** The counts of a dry run: every visit counts in the unchanged graph. */
  ghost function TotalPlanned(g: Graph, visits: seq<Visit>): Counts {
    if visits == [] then ZERO
    else
      var n := |visits| - 1;
      Plus(TotalPlanned(g, visits[..n]), DryCounts(g, visits[n].m, visits[n].rows))
  }

  lemma VisitsGrow(g: Graph, visits: seq<Visit>, v: Visit)
    ensures AfterVisits(g, visits + [v]) == AfterVisit(AfterVisits(g, visits), v)
    ensures TotalCounts(g, visits + [v])
            == Plus(TotalCounts(g, visits), RealCounts(AfterVisits(g, visits), v.m, v.rows))
    ensures TotalPlanned(g, visits + [v]) == Plus(TotalPlanned(g, visits), DryCounts(g, v.m, v.rows))
    ensures MergeRun(g, visits + [v])
            <==> && MergeRun(g, visits)
                 && v.m.alias in AfterVisits(g, visits).entities
                 && Listing(AfterVisits(g, visits), v.m.alias, v.rows, v.split)
  {
    assert (visits + [v])[..|visits|] == visits;
  }

  /** The aliases that are not tombstones yet. */
  function Live(ents: Entities, aliases: seq<Uuid>): (r: seq<Uuid>)
    ensures forall u :: u in r <==> u in aliases && u in ents && !ents[u].merged
  {
    if aliases == [] then []
    else
      var front, a := aliases[..|aliases| - 1], aliases[|aliases| - 1];
      assert aliases == front + [a];
      Live(ents, front) + if a in ents && !ents[a].merged then [a] else []
  }

  /** The earliest creation time among the canonical and the aliases. */
  function Earliest(ents: Entities, c: Uuid, aliases: seq<Uuid>): Timestamp
    requires c in ents && forall a <- aliases :: a in ents
  {
    if aliases == [] then ents[c].createdAt
    else
      var front, a := aliases[..|aliases| - 1], aliases[|aliases| - 1];
      var t := Earliest(ents, c, front);
      if ents[a].createdAt < t then ents[a].createdAt else t
  }

  function LiveAliases(ents: Entities, p: MergeParams, c: Uuid): seq<Uuid>
    requires c in ents
  {
    Live(ents, Sorted(AliasSet(ents, p, c)))
  }

  function Backdate(g: Graph, c: Uuid, t: Timestamp): Graph
    requires c in g.entities
  {
    g.(entities := g.entities[c := g.entities[c].(createdAt := t)])
  }

  /** What a call that merges does: the run over its live aliases, then the canonical takes the
    * earliest creation time of all. */
  ghost predicate Merged(g: Graph, p: MergeParams, ts: Timestamp, c: Uuid, visits: seq<Visit>, g': Graph) {
    && Proceeds(g.entities, p, c)
    && MergeRun(g, visits)
    && VisitsOf(visits, c, LiveAliases(g.entities, p, c), p.Group(), ts)
    && c in AfterVisits(g, visits).entities
    && g' == Backdate(AfterVisits(g, visits), c, Earliest(g.entities, c, LiveAliases(g.entities, p, c)))
  }

  /** Everything a call can do to the graph. */
  ghost predicate MergeCall(g: Graph, p: MergeParams, ts: Timestamp, g': Graph) {
    if p.dryRun || !(exists c :: Proceeds(g.entities, p, c)) then g' == g
    else exists c, visits :: Merged(g, p, ts, c, visits, g')
  }

  /** What the expansion of the alias list complains about. */
  function AliasErrors(ents: Entities, p: MergeParams, c: Uuid): set<MergeError> {
    (set u | u in p.aliasUuids && u != c && u !in ents :: AliasNotFound(u))
    + (set u | u in p.aliasUuids && u != c && u in ents && ents[u].group != p.Group() :: AliasForeign(u))
    + (set n | n in p.aliasNames && NamedRows(ents, n, p.Group(), p.kind) == {} :: AliasNameUnmatched(n))
  }

  predicate AllSoft(errors: set<MergeError>) {
    forall e | e in errors :: Soft(e)
  }

  /** One alias's turn: its edges, then its tombstone. */
  method MergeAlias(db: Db, m: Merge, dryRun: bool) returns (counts: Counts, ghost v: Visit)
    requires m.alias in db.entities
    modifies db`entities, db`edges, db`src, db`dst, db`direct, db`next, db`mutations
    ensures v.m == m && Listing(old(db.View()), m.alias, v.rows, v.split)
    ensures dryRun ==> db.View() == old(db.View()) && counts == DryCounts(old(db.View()), m, v.rows)
    ensures !dryRun ==> && db.View() == AfterVisit(old(db.View()), v)
                        && counts == RealCounts(old(db.View()), m, v.rows)
  {
    ghost var rows, split;
    counts, rows, split := MergeEntitiesInner(db, m, dryRun);
    v := Visit(m, rows, split);
    if !dryRun {
      assert db.View() == Rewritten(old(db.View()), m, rows);
      RewrittenKeepsEntities(old(db.View()), m, rows);
      db.SetEntity(m.alias, db.entities[m.alias].(merged := true, mergedInto := Some(m.canonical)));
    }
  }

  lemma {:induction false} RewrittenKeepsEntities(g: Graph, m: Merge, rows: seq<FullEdge>)
    ensures Rewritten(g, m, rows).entities == g.entities
  {
    if rows != [] {
      RewrittenKeepsEntities(g, m, rows[..|rows| - 1]);
    }
  }

  /** What the loop over the aliases accumulates. */
  datatype Tally = Tally(merged: nat, skipped: nat, counts: Counts, plan: seq<AliasInfo>, earliest: Timestamp)

  /** The plan has one entry per visit: its alias, and what the dry run of that alias counts. */
  ghost predicate Planned(g: Graph, visits: seq<Visit>, plan: seq<AliasInfo>) {
    && |plan| == |visits|
    && forall i :: 0 <= i < |visits| ==>
         && visits[i].m.alias in g.entities
         && plan[i] == AliasInfo(visits[i].m.alias, g.entities[visits[i].m.alias].name,
                                 DryCounts(g, visits[i].m, visits[i].rows))
  }

  /** The graph, the edge counts and the plan after the visits. */
  ghost predicate Ran(g: Graph, dryRun: bool, counts: Counts, plan: seq<AliasInfo>, view: Graph, visits: seq<Visit>) {
    if dryRun then
      view == g && PlannedRun(g, visits) && counts == TotalPlanned(g, visits) && Planned(g, visits, plan)
    else
      MergeRun(g, visits) && view == AfterVisits(g, visits) && counts == TotalCounts(g, visits) && plan == []
  }

  lemma RanStep(g: Graph, dryRun: bool, counts: Counts, plan: seq<AliasInfo>, view: Graph, visits: seq<Visit>,
                v: Visit, one: Counts, view': Graph)
    requires Ran(g, dryRun, counts, plan, view, visits)
    requires v.m.alias in view.entities && Listing(view, v.m.alias, v.rows, v.split)
    requires dryRun ==> view' == view && one == DryCounts(g, v.m, v.rows)
    requires !dryRun ==> view' == AfterVisit(view, v) && one == RealCounts(view, v.m, v.rows)
    ensures Ran(g, dryRun, Plus(counts, one),
                if dryRun then plan + [AliasInfo(v.m.alias, view.entities[v.m.alias].name, one)] else plan,
                view', visits + [v])
  {
    if dryRun {
      VisitsGrow(g, visits, v);
      PlannedStep(g, visits, plan, v);
    } else {
      VisitsGrow(g, visits, v);
    }
  }

  lemma PlannedStep(g: Graph, visits: seq<Visit>, plan: seq<AliasInfo>, v: Visit)
    requires Planned(g, visits, plan) && PlannedRun(g, visits)
    requires v.m.alias in g.entities && Listing(g, v.m.alias, v.rows, v.split)
    ensures Planned(g, visits + [v],
                    plan + [AliasInfo(v.m.alias, g.entities[v.m.alias].name, DryCounts(g, v.m, v.rows))])
    ensures PlannedRun(g, visits + [v])
  {
    forall w <- visits + [v]
      ensures Listing(g, w.m.alias, w.rows, w.split)
    {
      assert w in visits || w == v;
    }
  }

  /** The rows of `part` are as they were. */
  ghost predicate UntouchedIn(ents: Entities, ents': Entities, part: set<Uuid>) {
    forall u <- part :: u in ents && u in ents' && ents'[u] == ents[u]
  }

  lemma OthersKept(g: Graph, v: Visit)
    requires v.m.alias in g.entities
    ensures AfterVisit(g, v).entities.Keys == g.entities.Keys
    ensures UntouchedIn(g.entities, AfterVisit(g, v).entities, g.entities.Keys - {v.m.alias})
  {
  }

  /** One alias's turn, in terms of the run it extends. */
  method MergeTurn(db: Db, m: Merge, dryRun: bool, counts: Counts, plan: seq<AliasInfo>,
                   ghost g: Graph, ghost visits: seq<Visit>)
    returns (counts': Counts, plan': seq<AliasInfo>, ghost v: Visit)
    requires m.alias in db.entities && Ran(g, dryRun, counts, plan, db.View(), visits)
    modifies db`entities, db`edges, db`src, db`dst, db`direct, db`next, db`mutations
    ensures v.m == m && Ran(g, dryRun, counts', plan', db.View(), visits + [v])
    ensures db.entities.Keys == old(db.entities.Keys)
    ensures UntouchedIn(old(db.entities), db.entities, old(db.entities.Keys) - {m.alias})
  {
    ghost var view := db.View();
    var name, one := db.entities[m.alias].name, ZERO;
    one, v := MergeAlias(db, m, dryRun);
    RanStep(g, dryRun, counts, plan, view, visits, v, one, db.View());
    OthersKept(view, v);
    counts', plan' := Plus(counts, one), plan;
    if dryRun {
      plan' := plan + [AliasInfo(m.alias, name, one)];
    }
  }

  /** The tally of the aliases done so far. */
  ghost predicate Tallied(ents: Entities, c: Uuid, group: GroupId, ts: Timestamp, done: seq<Uuid>,
                          t: Tally, visits: seq<Visit>)
    requires c in ents
  {
    && t.merged == |Live(ents, done)| && t.merged + t.skipped == |done|
    && VisitsOf(visits, c, Live(ents, done), group, ts)
    && t.earliest == Earliest(ents, c, Live(ents, done))
  }

  function TallyOf(t: Tally, e: Entity, counts: Counts, plan: seq<AliasInfo>): Tally {
    if e.merged then t.(skipped := t.skipped + 1)
    else Tally(t.merged + 1, t.skipped, counts, plan, if e.createdAt < t.earliest then e.createdAt else t.earliest)
  }

  lemma TallyGrows(ents: Entities, c: Uuid, group: GroupId, ts: Timestamp, done: seq<Uuid>,
                   t: Tally, visits: seq<Visit>, a: Uuid, counts: Counts, plan: seq<AliasInfo>, v: seq<Visit>)
    requires c in ents && a in ents && Tallied(ents, c, group, ts, done, t, visits)
    requires |v| == if ents[a].merged then 0 else 1
    requires !ents[a].merged ==> v[0].m == Merge(c, a, group, ts)
    ensures Tallied(ents, c, group, ts, done + [a], TallyOf(t, ents[a], counts, plan), visits + v)
  {
    assert (done + [a])[..|done|] == done;
    var live := Live(ents, done);
    if ents[a].merged {
      assert Live(ents, done + [a]) == live && visits + v == visits;
    } else {
      assert Live(ents, done + [a]) == live + [a];
      assert (live + [a])[..|live|] == live && (live + [a])[|live|] == a;
    }
  }

  /** The rows still to come are as they were at the start. */
  ghost predicate Untouched(ents: Entities, ents': Entities, rows: seq<Uuid>, from: nat) {
    forall j :: from <= j < |rows| ==> rows[j] in ents && rows[j] in ents' && ents'[rows[j]] == ents[rows[j]]
  }

  /** One round of the loop: a tombstone is skipped, any other alias is merged. */
  method NextAlias(db: Db, c: Uuid, a: Uuid, group: GroupId, ts: Timestamp, dryRun: bool, t: Tally,
                   ghost g: Graph, ghost done: seq<Uuid>, ghost visits: seq<Visit>)
    returns (t': Tally, ghost visits': seq<Visit>)
    requires a in db.entities && a in g.entities && db.entities[a] == g.entities[a] && c in g.entities
    requires Tallied(g.entities, c, group, ts, done, t, visits)
    requires Ran(g, dryRun, t.counts, t.plan, db.View(), visits)
    modifies db`entities, db`edges, db`src, db`dst, db`direct, db`next, db`mutations
    ensures Tallied(g.entities, c, group, ts, done + [a], t', visits')
    ensures Ran(g, dryRun, t'.counts, t'.plan, db.View(), visits')
    ensures db.entities.Keys == old(db.entities.Keys)
    ensures UntouchedIn(old(db.entities), db.entities, old(db.entities.Keys) - {a})
  {
    var row := db.entities[a];
    if row.merged {
      TallyGrows(g.entities, c, group, ts, done, t, visits, a, t.counts, t.plan, []);
      assert visits + [] == visits;
      t', visits' := TallyOf(t, row, t.counts, t.plan), visits;
    } else {
      var counts, plan;
      ghost var v;
      counts, plan, v := MergeTurn(db, Merge(c, a, group, ts), dryRun, t.counts, t.plan, g, visits);
      TallyGrows(g.entities, c, group, ts, done, t, visits, a, counts, plan, [v]);
      t', visits' := TallyOf(t, row, counts, plan), visits + [v];
    }
  }

  lemma UntouchedStep(ents: Entities, before: Entities, after: Entities, rows: seq<Uuid>, i: nat)
    requires i < |rows| && forall j :: i < j < |rows| ==> rows[i] < rows[j]
    requires Untouched(ents, before, rows, i) && UntouchedIn(before, after, before.Keys - {rows[i]})
    ensures Untouched(ents, after, rows, i + 1)
  {
    forall j | i < j < |rows|
      ensures rows[j] in ents && rows[j] in after && after[rows[j]] == ents[rows[j]]
    {
      assert rows[j] in before.Keys - {rows[i]};
    }
  }

  /** The loop over the aliases, `i` of which are done. */
  ghost predicate InRound(g: Graph, c: Uuid, group: GroupId, ts: Timestamp, dryRun: bool, aliases: seq<Uuid>, i: nat,
                          t: Tally, view: Graph, visits: seq<Visit>)
    requires i <= |aliases|
  {
    && c in g.entities
    && Tallied(g.entities, c, group, ts, aliases[..i], t, visits)
    && Ran(g, dryRun, t.counts, t.plan, view, visits)
    && Untouched(g.entities, view.entities, aliases, i)
    && view.entities.Keys == g.entities.Keys && view.entities[c] == g.entities[c]
  }

  lemma FirstRound(g: Graph, dryRun: bool, c: Uuid, group: GroupId, ts: Timestamp, aliases: seq<Uuid>)
    requires c in g.entities && forall a <- aliases :: a in g.entities
    ensures InRound(g, c, group, ts, dryRun, aliases, 0, Tally(0, 0, ZERO, [], g.entities[c].createdAt), g, [])
  {
  }

  /** One round more leaves the rows to come and the canonical as they were. */
  lemma NextRound(ents: Entities, before: Entities, after: Entities, rows: seq<Uuid>, i: nat, c: Uuid)
    requires i < |rows| && forall j, k :: 0 <= j < k < |rows| ==> rows[j] < rows[k]
    requires Untouched(ents, before, rows, i) && UntouchedIn(before, after, before.Keys - {rows[i]})
    requires c !in rows && c in before && c in ents && before[c] == ents[c]
    ensures Untouched(ents, after, rows, i + 1) && c in after && after[c] == ents[c]
  {
    UntouchedStep(ents, before, after, rows, i);
    assert c in before.Keys - {rows[i]};
  }

  method Round(db: Db, c: Uuid, aliases: seq<Uuid>, i: nat, group: GroupId, ts: Timestamp, dryRun: bool, t: Tally,
               ghost g: Graph, ghost visits: seq<Visit>)
    returns (t': Tally, ghost visits': seq<Visit>)
    requires c !in aliases && forall j, k :: 0 <= j < k < |aliases| ==> aliases[j] < aliases[k]
    requires i < |aliases| && InRound(g, c, group, ts, dryRun, aliases, i, t, db.View(), visits)
    modifies db`entities, db`edges, db`src, db`dst, db`direct, db`next, db`mutations
    ensures InRound(g, c, group, ts, dryRun, aliases, i + 1, t', db.View(), visits')
  {
    ghost var before := db.entities;
    t', visits' := NextAlias(db, c, aliases[i], group, ts, dryRun, t, g, aliases[..i], visits);
    PrefixStep(aliases, i);
    NextRound(g.entities, before, db.entities, aliases, i, c);
  }

  /** The loop over the aliases in uuid order. */
  method MergeAliases(db: Db, c: Uuid, aliases: seq<Uuid>, group: GroupId, ts: Timestamp, dryRun: bool)
    returns (t: Tally, ghost visits: seq<Visit>)
    requires c in db.entities && c !in aliases && forall a <- aliases :: a in db.entities
    requires forall i, j :: 0 <= i < j < |aliases| ==> aliases[i] < aliases[j]
    modifies db`entities, db`edges, db`src, db`dst, db`direct, db`next, db`mutations
    ensures Tallied(old(db.entities), c, group, ts, aliases, t, visits)
    ensures Ran(old(db.View()), dryRun, t.counts, t.plan, db.View(), visits)
    ensures db.entities.Keys == old(db.entities.Keys)
    ensures c in db.entities && db.entities[c] == old(db.entities[c])
  {
    visits := [];
    t := Tally(0, 0, ZERO, [], db.entities[c].createdAt);
    ghost var g := db.View();
    FirstRound(g, dryRun, c, group, ts, aliases);
    var i := 0;
    while i < |aliases|
      invariant 0 <= i <= |aliases|
      invariant InRound(g, c, group, ts, dryRun, aliases, i, t, db.View(), visits)
    {
      t, visits := Round(db, c, aliases, i, group, ts, dryRun, t, g, visits);
      i := i + 1;
    }
    assert aliases[..i] == aliases;
  }

  method BackdateCanonical(db: Db, c: Uuid, t: Timestamp)
    requires c in db.entities
    modifies db`entities, db`mutations
    ensures db.View() == Backdate(old(db.View()), c, t)
  {
    if t != db.entities[c].createdAt {
      db.SetEntity(c, db.entities[c].(createdAt := t));
    }
  }

  /** `merge_entities`. */
  method MergeEntities(db: Db, p: MergeParams, ts: Timestamp)
    returns (report: MergeReport, ghost visits: seq<Visit>)
    modifies db`entities, db`edges, db`src, db`dst, db`direct, db`next, db`mutations
    ensures MergeCall(old(db.View()), p, ts, db.View())
    ensures var r := ResolveCanonical(old(db.entities), p);
            r.Refused? ==> report == MergeReport(false, r.found, 0, 0, ZERO, {r.error}, None)
    ensures var r := ResolveCanonical(old(db.entities), p);
            r.Accepted? && !Proceeds(old(db.entities), p, r.uuid) ==>
              report == MergeReport(false, Some(r.uuid), 0, 0, ZERO,
                                    AliasErrors(old(db.entities), p, r.uuid) + {KindsDiffer}, None)
    ensures var r := ResolveCanonical(old(db.entities), p);
            r.Accepted? && Proceeds(old(db.entities), p, r.uuid) ==>
              && report.canonical == Some(r.uuid)
              && report.merged == |LiveAliases(old(db.entities), p, r.uuid)|
              && report.merged + report.skipped == |AliasSet(old(db.entities), p, r.uuid)|
              && report.errors == AliasErrors(old(db.entities), p, r.uuid)
              && report.success == AllSoft(report.errors)
              && VisitsOf(visits, r.uuid, LiveAliases(old(db.entities), p, r.uuid), p.Group(), ts)
              && (p.dryRun ==> && PlannedRun(old(db.View()), visits)
                               && report.counts == TotalPlanned(old(db.View()), visits)
                               && report.plan.Some? && Planned(old(db.View()), visits, report.plan.value))
              && (!p.dryRun ==> && Merged(old(db.View()), p, ts, r.uuid, visits, db.View())
                                && report.counts == TotalCounts(old(db.View()), visits)
                                && report.plan == None)
  {
    visits := [];
    ghost var g := db.View();
    var canonical := ResolveCanonical(db.entities, p);
    if canonical.Refused? {
      return MergeReport(false, canonical.found, 0, 0, ZERO, {canonical.error}, None), visits;
    }
    var c := canonical.uuid;
    AliasesAreRows(db.entities, p, c);
    var aliases := Sorted(AliasSet(db.entities, p, c));
    var errors := AliasErrors(db.entities, p, c);
    if !SameKind(db.entities, c, AliasSet(db.entities, p, c)) {
      return MergeReport(false, Some(c), 0, 0, ZERO, errors + {KindsDiffer}, None), visits;
    }
    assert Proceeds(g.entities, p, c);
    var t;
    t, visits := MergeAliases(db, c, aliases, p.Group(), ts, p.dryRun);
    if !p.dryRun {
      BackdateCanonical(db, c, t.earliest);
      assert Merged(g, p, ts, c, visits, db.View());
    }
    report := MergeReport(AllSoft(errors), Some(c), t.merged, t.skipped, t.counts, errors,
                          if p.dryRun then Some(t.plan) else None);
  }
}
