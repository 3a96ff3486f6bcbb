/** A merge call in terms of its parameters and of the stored rows: which row becomes the canonical, why a
  * call is refused, which rows become its tombstones, and what it reports. Nothing here goes through the
  * functions that compute the answers. */
module MergeCalls {
  import opened Common
  import opened PropertyGraph
  import opened NameLookup
  import opened UuidOrder
  import opened Store
  import opened MergeEdges
  import opened MergeCounts
  import opened MergeSets
  import opened Corrections
  import opened MergeInvariants
  import opened ResolutionAnswers

  /** The group of the call; none given means "liminis". */
  ghost predicate InCallGroup(p: MergeParams, group: GroupId) {
    if p.group == "" then group == "liminis" else group == p.group
  }

  ghost predicate Alike(e: Entity, e': Entity) {
    exists kind :: OfKind(e, kind) && OfKind(e', kind)
  }

  /** The row has that exact name, in the group of the call and of its kind, if it gives one. */
  ghost predicate Bears(ents: Entities, p: MergeParams, name: Name, u: Uuid) {
    && u in ents && ents[u].name == name && InCallGroup(p, ents[u].group)
    && (p.kind.Some? ==> OfKind(ents[u], p.kind.value))
  }

  lemma KindIs(e: Entity, kind: Kind)
    ensures OfKind(e, kind) <==> e.Kind() == kind
  {
  }

  lemma AlikeIs(e: Entity, e': Entity)
    ensures Alike(e, e') <==> e.Kind() == e'.Kind()
  {
    assert OfKind(e, e.Kind());
  }

  lemma BearsIs(ents: Entities, p: MergeParams, name: Name, u: Uuid)
    ensures u in NamedRows(ents, name, p.Group(), p.kind) <==> Bears(ents, p, name, u)
  {
  }

  // The canonical.

  ghost predicate WellAsked(p: MergeParams) {
    && (p.canonicalUuid.Some? || p.canonicalName.Some?)
    && (p.aliasUuids != [] || p.aliasNames != [] || p.mergeAllByName)
  }

  /** A live row that has the canonical's name, for a call that gives no canonical uuid. */
  ghost predicate BearsCanonicalName(ents: Entities, p: MergeParams, u: Uuid) {
    && p.canonicalUuid.None? && p.canonicalName.Some?
    && Bears(ents, p, p.canonicalName.value, u) && !ents[u].merged
  }

  ghost predicate NameIsShared(ents: Entities, p: MergeParams) {
    exists u, v :: BearsCanonicalName(ents, p, u) && BearsCanonicalName(ents, p, v) && !Alike(ents[u], ents[v])
  }

  /** The row that the call means by its canonical: the one of the uuid, or the oldest live one of the name
    * when they are all of one kind. */
  ghost predicate Meant(ents: Entities, p: MergeParams, c: Uuid) {
    if p.canonicalUuid.Some? then c == p.canonicalUuid.value && c in ents
    else
      && BearsCanonicalName(ents, p, c) && !NameIsShared(ents, p)
      && forall v :: BearsCanonicalName(ents, p, v) ==> NoYounger(ents, c, v)
  }

  lemma MeantByName(ents: Entities, p: MergeParams)
    requires WellAsked(p) && p.canonicalUuid.None?
    ensures var r := FindCanonical(ents, p);
            && (r == Refused(CanonicalAmbiguous, None) <==> NameIsShared(ents, p))
            && (r == Refused(CanonicalNotFound, None) <==> !NameIsShared(ents, p) && forall c :: !Meant(ents, p, c))
            && (r.Refused? ==> r.error in {CanonicalAmbiguous, CanonicalNotFound})
            && forall c: Uuid :: r == Accepted(c) <==> Meant(ents, p, c)
  {
    var rows := ActiveNamed(ents, p.canonicalName.value, p.Group(), p.kind);
    forall u: Uuid
      ensures u in rows <==> BearsCanonicalName(ents, p, u)
    {
      BearsIs(ents, p, p.canonicalName.value, u);
    }
    forall u, v | u in rows && v in rows
      ensures Alike(ents[u], ents[v]) <==> ents[u].Kind() == ents[v].Kind()
    {
      AlikeIs(ents[u], ents[v]);
    }
    assert OneKind(ents, rows) <==> !NameIsShared(ents, p);
    forall c: Uuid
      ensures !NameIsShared(ents, p) ==> (First(ents, rows) == Some(c) <==> Meant(ents, p, c))
    {
      FirstIs(ents, rows, c);
    }
  }

  /** The answer for the canonical, case by case. */
  lemma CanonicalAnswer(ents: Entities, p: MergeParams)
    ensures var r := ResolveCanonical(ents, p);
            && (r == Refused(NoCanonicalGiven, None) <==> p.canonicalUuid.None? && p.canonicalName.None?)
            && (r == Refused(NoAliasGiven, None)
                <==> && (p.canonicalUuid.Some? || p.canonicalName.Some?)
                     && p.aliasUuids == [] && p.aliasNames == [] && !p.mergeAllByName)
            && (r == Refused(CanonicalAmbiguous, None) <==> WellAsked(p) && NameIsShared(ents, p))
            && (r == Refused(CanonicalNotFound, None)
                <==> WellAsked(p) && !NameIsShared(ents, p) && forall c :: !Meant(ents, p, c))
            && forall c: Uuid ::
                 && (r == Refused(CanonicalMerged, Some(c))
                     <==> WellAsked(p) && Meant(ents, p, c) && ents[c].merged)
                 && (r == Refused(CanonicalForeign, Some(c))
                     <==> && WellAsked(p) && Meant(ents, p, c) && !ents[c].merged
                          && !InCallGroup(p, ents[c].group))
                 && (r == Accepted(c)
                     <==> && WellAsked(p) && Meant(ents, p, c) && !ents[c].merged
                          && InCallGroup(p, ents[c].group))
  {
    if WellAsked(p) {
      if p.canonicalUuid.None? {
        MeantByName(ents, p);
      } else {
        assert !NameIsShared(ents, p);
        assert forall c :: Meant(ents, p, c) <==> FindCanonical(ents, p) == Accepted(c);
      }
    }
  }

  // The aliases.

  /** The call names row `u` as an alias of `c`: by uuid, by its exact name, or as a namesake of the canonical
    * in the canonical's kind. */
  ghost predicate NamesAlias(ents: Entities, p: MergeParams, c: Uuid, u: Uuid) {
    && c in ents && u in ents && u != c && InCallGroup(p, ents[u].group)
    && (|| u in p.aliasUuids
        || (ents[u].name in p.aliasNames && (p.kind.Some? ==> OfKind(ents[u], p.kind.value)))
        || (p.mergeAllByName && ents[u].name == ents[c].name && Alike(ents[u], ents[c])))
  }

  ghost predicate NamesLiveAlias(ents: Entities, p: MergeParams, c: Uuid, u: Uuid) {
    NamesAlias(ents, p, c, u) && !ents[u].merged
  }

  lemma AliasesAre(ents: Entities, p: MergeParams, c: Uuid, u: Uuid)
    requires c in ents
    ensures u in AliasSet(ents, p, c) <==> NamesAlias(ents, p, c, u)
  {
    if u in ents {
      AlikeIs(ents[u], ents[c]);
      BearsIs(ents, p, ents[u].name, u);
    }
  }

  /** The call gets past every refusal exactly when its canonical is accepted and every alias it names is of
    * the canonical's kind. */
  lemma ProceedsIff(ents: Entities, p: MergeParams, c: Uuid)
    ensures Proceeds(ents, p, c)
            <==> && WellAsked(p) && Meant(ents, p, c) && !ents[c].merged && InCallGroup(p, ents[c].group)
                 && forall u :: NamesAlias(ents, p, c, u) ==> Alike(ents[u], ents[c])
  {
    CanonicalAnswer(ents, p);
    if ResolveCanonical(ents, p) == Accepted(c) {
      forall u: Uuid
        ensures u in AliasSet(ents, p, c) <==> NamesAlias(ents, p, c, u)
        ensures NamesAlias(ents, p, c, u) ==> (Alike(ents[u], ents[c]) <==> ents[u].Kind() == ents[c].Kind())
      {
        AliasesAre(ents, p, c, u);
        if u in ents {
          AlikeIs(ents[u], ents[c]);
        }
      }
    }
  }

  /** The complaints about the alias list, one by one. */
  lemma ComplaintsAre(ents: Entities, p: MergeParams, c: Uuid)
    ensures var errors := AliasErrors(ents, p, c);
            && (forall u: Uuid :: AliasNotFound(u) in errors <==> u in p.aliasUuids && u != c && u !in ents)
            && (forall u: Uuid :: AliasForeign(u) in errors
                                  <==> && u in p.aliasUuids && u != c && u in ents
                                       && !InCallGroup(p, ents[u].group))
            && (forall n: Name :: AliasNameUnmatched(n) in errors
                                  <==> n in p.aliasNames && forall u :: !Bears(ents, p, n, u))
            && (forall e <- errors :: e.AliasNotFound? || e.AliasForeign? || e.AliasNameUnmatched?)
  {
    var errors := AliasErrors(ents, p, c);
    forall n: Name
      ensures NamedRows(ents, n, p.Group(), p.kind) == {} <==> forall u :: !Bears(ents, p, n, u)
    {
      assert forall u :: u in NamedRows(ents, n, p.Group(), p.kind) <==> Bears(ents, p, n, u);
    }
  }

  /** A call that proceeds succeeds unless one of its alias uuids is a row of another group. */
  lemma SucceedsIff(ents: Entities, p: MergeParams, c: Uuid)
    ensures AllSoft(AliasErrors(ents, p, c))
            <==> forall u :: u in p.aliasUuids && u != c && u in ents ==> InCallGroup(p, ents[u].group)
  {
    var errors := AliasErrors(ents, p, c);
    ComplaintsAre(ents, p, c);
    assert AllSoft(errors) <==> forall u: Uuid :: AliasForeign(u) !in errors by {
      assert forall e <- errors :: Soft(e) <==> !e.AliasForeign?;
      if u: Uuid :| AliasForeign(u) in errors {
        assert !Soft(AliasForeign(u));
      }
    }
  }

  // The live aliases, in the order of their turns.

  ghost predicate Ascending(s: seq<Uuid>) {
    forall i, j :: 0 <= i < j < |s| ==> s[i] < s[j]
  }

  lemma {:induction false} LiveInOrder(ents: Entities, aliases: seq<Uuid>)
    requires Ascending(aliases)
    ensures Ascending(Live(ents, aliases))
  {
    if aliases != [] {
      var front, a := aliases[..|aliases| - 1], aliases[|aliases| - 1];
      var before := Live(ents, front);
      LiveInOrder(ents, front);
      forall i | 0 <= i < |before|
        ensures before[i] < a
      {
        assert before[i] in before;
        var j :| 0 <= j < |front| && front[j] == before[i];
        assert aliases[j] == before[i];
      }
      OneAbove(before, a);
    }
  }

  lemma OneAbove(s: seq<Uuid>, a: Uuid)
    requires Ascending(s) && forall i :: 0 <= i < |s| ==> s[i] < a
    ensures Ascending(s + [a])
  {
  }

  ghost function NamedAliases(ents: Entities, p: MergeParams, c: Uuid): set<Uuid> {
    set u | u in ents && NamesAlias(ents, p, c, u)
  }

  ghost function NamedLive(ents: Entities, p: MergeParams, c: Uuid): set<Uuid> {
    set u | u in ents && NamesLiveAlias(ents, p, c, u)
  }

  lemma AliasCount(ents: Entities, p: MergeParams, c: Uuid)
    requires c in ents
    ensures AliasSet(ents, p, c) == NamedAliases(ents, p, c)
  {
    forall u: Uuid
      ensures u in AliasSet(ents, p, c) <==> NamesAlias(ents, p, c, u)
    {
      AliasesAre(ents, p, c, u);
    }
  }

  /** The turns go to the live rows that the call names, each once, in uuid order. */
  lemma TurnsAre(ents: Entities, p: MergeParams, c: Uuid)
    requires c in ents
    ensures var turns := LiveAliases(ents, p, c);
            && (forall u :: u in turns <==> NamesLiveAlias(ents, p, c, u))
            && Ascending(turns)
  {
    AliasCount(ents, p, c);
    LiveInOrder(ents, Sorted(AliasSet(ents, p, c)));
  }

  /** The call reports as merged the number of live rows that it names, and together with the skipped ones
    * the number of all rows that it names. */
  lemma ReportedNumbers(ents: Entities, p: MergeParams, c: Uuid)
    requires c in ents
    ensures |LiveAliases(ents, p, c)| == |NamedLive(ents, p, c)|
    ensures |AliasSet(ents, p, c)| == |NamedAliases(ents, p, c)|
  {
    TurnsAre(ents, p, c);
    AliasCount(ents, p, c);
    SizeOfList(LiveAliases(ents, p, c), NamedLive(ents, p, c));
  }

  lemma {:induction false} SizeOfList(s: seq<Uuid>, all: set<Uuid>)
    requires Ascending(s) && forall u :: u in s <==> u in all
    ensures |s| == |all|
  {
    if s == [] {
      assert all == {};
    } else {
      var front, last := s[..|s| - 1], s[|s| - 1];
      assert s == front + [last];
      SizeOfList(front, all - {last});
    }
  }

  // The call.

  lemma {:induction false} EarliestIsTheMinimum(ents: Entities, c: Uuid, aliases: seq<Uuid>)
    requires c in ents && forall a <- aliases :: a in ents
    ensures var t := Earliest(ents, c, aliases);
            && t <= ents[c].createdAt && (forall a <- aliases :: t <= ents[a].createdAt)
            && (t == ents[c].createdAt || exists a :: a in aliases && ents[a].createdAt == t)
  {
    if aliases != [] {
      var front, a := aliases[..|aliases| - 1], aliases[|aliases| - 1];
      assert aliases == front + [a];
      EarliestIsTheMinimum(ents, c, front);
    }
  }

  lemma CanonicalIsBackdated(g: Graph, p: MergeParams, ts: Timestamp, c: Uuid, visits: seq<Visit>, g': Graph)
    requires WellFormed(g) && Merged(g, p, ts, c, visits, g')
    ensures c in g.entities && c in g'.entities
    ensures g'.entities[c] == g.entities[c].(createdAt := Earliest(g.entities, c, LiveAliases(g.entities, p, c)))
  {
    var turns := LiveAliases(g.entities, p, c);
    MergedKeeps(g, p, ts, c, visits, g');
    TombstoneAllRows(g.entities, turns, c);
    AliasesAreRows(g.entities, p, c);
    assert c !in turns;
  }

  /** The entity table after a merge into `c`: exactly the live rows that the call names as aliases are
    * tombstones of `c` now, `c` has the earliest creation time among itself and them, and nothing else
    * changed. */
  ghost predicate ExactlyTheNamed(ents: Entities, p: MergeParams, c: Uuid, ents': Entities) {
    && ents'.Keys == ents.Keys && c in ents
    && (forall u <- ents :: u != c ==>
          ents'[u] == if NamesLiveAlias(ents, p, c, u)
                      then ents[u].(merged := true, mergedInto := Some(c)) else ents[u])
    && ents'[c] == ents[c].(createdAt := ents'[c].createdAt)
    && ents'[c].createdAt <= ents[c].createdAt
    && (forall u :: NamesLiveAlias(ents, p, c, u) ==> ents'[c].createdAt <= ents[u].createdAt)
    && (ents'[c].createdAt < ents[c].createdAt ==>
          exists u :: NamesLiveAlias(ents, p, c, u) && ents[u].createdAt == ents'[c].createdAt)
  }

  lemma NamedAndBackdated(ents: Entities, p: MergeParams, c: Uuid, turns: seq<Uuid>, ents': Entities)
    requires c in ents && ents'.Keys == ents.Keys
    requires (forall u <- turns :: u in ents) && forall u :: u in turns <==> NamesLiveAlias(ents, p, c, u)
    requires forall u <- ents :: u != c ==>
               ents'[u] == if u in turns then ents[u].(merged := true, mergedInto := Some(c)) else ents[u]
    requires ents'[c] == ents[c].(createdAt := Earliest(ents, c, turns))
    ensures ExactlyTheNamed(ents, p, c, ents')
  {
    EarliestIsTheMinimum(ents, c, turns);
  }

  lemma MergedExactlyTheNamed(g: Graph, p: MergeParams, ts: Timestamp, c: Uuid, visits: seq<Visit>, g': Graph)
    requires WellFormed(g) && Merged(g, p, ts, c, visits, g')
    ensures ExactlyTheNamed(g.entities, p, c, g'.entities)
  {
    MergedTombstonesTheAliases(g, p, ts, c, visits, g');
    CanonicalIsBackdated(g, p, ts, c, visits, g');
    TurnsAre(g.entities, p, c);
    NamedAndBackdated(g.entities, p, c, LiveAliases(g.entities, p, c), g'.entities);
  }

  // What a dry run of the call reports.

  ghost function Pairs(aliases: seq<Uuid>, rows: Uuid -> set<Uuid>): set<(Uuid, Uuid)> {
    set a, rn | a in aliases && rn in rows(a) :: (a, rn)
  }

  ghost function Paired(a: Uuid, rows: set<Uuid>): set<(Uuid, Uuid)> {
    set rn | rn in rows :: (a, rn)
  }

  lemma {:induction false} PairedSize(a: Uuid, rows: set<Uuid>)
    ensures |Paired(a, rows)| == |rows|
  {
    if r :| r in rows {
      PairedSize(a, rows - {r});
      assert Paired(a, rows) == Paired(a, rows - {r}) + {(a, r)};
      assert (a, r) !in Paired(a, rows - {r});
    } else {
      assert Paired(a, rows) == {};
    }
  }

  lemma PairsStep(front: seq<Uuid>, a: Uuid, rows: Uuid -> set<Uuid>)
    requires a !in front
    ensures |Pairs(front + [a], rows)| == |Pairs(front, rows)| + |rows(a)|
  {
    var last := Paired(a, rows(a));
    forall q
      ensures q in Pairs(front + [a], rows) <==> q in Pairs(front, rows) || q in last
    {
      assert q.0 in front + [a] <==> q.0 in front || q.0 == a;
      assert q in last <==> q.0 == a && q.1 in rows(a);
      assert q in Pairs(front + [a], rows) <==> q.0 in front + [a] && q.1 in rows(q.0);
      assert q in Pairs(front, rows) <==> q.0 in front && q.1 in rows(q.0);
    }
    assert Pairs(front + [a], rows) == Pairs(front, rows) + last;
    assert Pairs(front, rows) !! last;
    PairedSize(a, rows(a));
  }

  /** The totals of a plan count pairs of an alias and an edge: the edges that would move, those among them
    * that would meet their own fact already stated, and those of other groups at each end. */
  lemma {:induction false} PlannedTotalsAreSets(
      g: Graph, visits: seq<Visit>, c: Uuid, aliases: seq<Uuid>, group: GroupId, ts: Timestamp)
    requires PlannedRun(g, visits) && VisitsOf(visits, c, aliases, group, ts) && Distinct(aliases)
    ensures var t := TotalPlanned(g, visits);
            && t.deduped == |Pairs(aliases, (a: Uuid) => Stated(g, Merge(c, a, group, ts)))|
            && t.rewritten + t.deduped == |Pairs(aliases, (a: Uuid) => Moving(g, Merge(c, a, group, ts)))|
            && t.foreignSkipped == |Pairs(aliases, (a: Uuid) => ForeignOn(g, Merge(c, a, group, ts), Src))|
                                   + |Pairs(aliases, (a: Uuid) => ForeignOn(g, Merge(c, a, group, ts), Dst))|
  {
    var stated := (a: Uuid) => Stated(g, Merge(c, a, group, ts));
    var moving := (a: Uuid) => Moving(g, Merge(c, a, group, ts));
    var out := (a: Uuid) => ForeignOn(g, Merge(c, a, group, ts), Src);
    var back := (a: Uuid) => ForeignOn(g, Merge(c, a, group, ts), Dst);
    if visits != [] {
      var n := |visits| - 1;
      var front, a := aliases[..n], aliases[n];
      assert aliases == front + [a] && a !in front;
      PlannedTotalsAreSets(g, visits[..n], c, front, group, ts);
      assert Listing(g, visits[n].m.alias, visits[n].rows, visits[n].split);
      DryCountsAreSets(g, visits[n].m, visits[n].rows, visits[n].split);
      PairsStep(front, a, stated);
      PairsStep(front, a, moving);
      PairsStep(front, a, out);
      PairsStep(front, a, back);
    }
  }
}
