/** Entity resolution for assert calls: a client of the name lookup and of the chain walk, for which
  * a dead-end chain is an error and several matching kinds are never guessed between. */
module Assertions {
  import opened Common
  import opened PropertyGraph
  import opened NameLookup
  import opened Forwarding
  import opened Store
  import opened NameQueries
  import opened MergeInvariants
  import opened PointerResolution

  datatype KindScope = Exact(kind: Kind) | AnyKind

  datatype Resolved =
    | NotFound
    | Existing(uuid: Uuid)
    | DeadEnd
    | AmbiguousEntity(candidates: map<Kind, Uuid>)

  /** The kinds that the lookup answers for. */
  function WinnerKinds(f: Folding, ents: Entities, group: GroupId, name: Name, scope: KindScope): set<Kind> {
    match scope
    case Exact(kind) => if LookupResult(f, ents, group, kind, name).Some? then {kind} else {}
    case AnyKind => WinningKinds(f, ents, group, name)
  }

  function Winners(f: Folding, ents: Entities, group: GroupId, name: Name, scope: KindScope): (w: map<Kind, Uuid>)
    ensures w.Keys == WinnerKinds(f, ents, group, name, scope)
    ensures forall k <- w :: LookupResult(f, ents, group, k, name) == Some(w[k])
    ensures forall k <- w :: w[k] in ents && Matches(f, ents[w[k]], group, k, name)
  {
    WinnersAreRows(f, ents, group, name, scope);
    map k | k in WinnerKinds(f, ents, group, name, scope) :: LookupResult(f, ents, group, k, name).value
  }

  lemma WinnersAreRows(f: Folding, ents: Entities, group: GroupId, name: Name, scope: KindScope)
    ensures forall k <- WinnerKinds(f, ents, group, name, scope) ::
              var r := LookupResult(f, ents, group, k, name);
              r.Some? && r.value in ents && Matches(f, ents[r.value], group, k, name)
  {
    AnyKindAgreesOnExistence(f, ents, group, name);
    forall k: Kind
      ensures LookupResult(f, ents, group, k, name).Some?
              <==> exists u :: u in ents && Matches(f, ents[u], group, k, name)
      ensures var r := LookupResult(f, ents, group, k, name);
              r.Some? ==> r.value in ents && Matches(f, ents[r.value], group, k, name)
    {
      LookupAgreesOnExistence(f, ents, group, k, name);
    }
  }

  /** The row itself when it is live, else where its chain ends. */
  function Forwarded(ents: Entities, group: GroupId, u: Uuid): Option<Uuid>
    requires u in ents
  {
    if ents[u].merged then Walk(ents, group, u) else Some(u)
  }

  ghost predicate Stuck(ents: Entities, group: GroupId, winners: map<Kind, Uuid>) {
    exists k :: k in winners && winners[k] in ents && Forwarded(ents, group, winners[k]).None?
  }

  /** What the answer must be for a set of winners. */
  ghost predicate Answers(ents: Entities, group: GroupId, winners: map<Kind, Uuid>, r: Resolved)
    requires forall k <- winners :: winners[k] in ents
  {
    match r
    case DeadEnd => Stuck(ents, group, winners)
    case NotFound => winners == map[]
    case Existing(u) =>
      exists k :: winners.Keys == {k} && Forwarded(ents, group, winners[k]) == Some(u)
    case AmbiguousEntity(candidates) =>
      && |winners| > 1 && candidates.Keys == winners.Keys
      && forall k <- winners :: Forwarded(ents, group, winners[k]) == Some(candidates[k])
  }

  /** The loop that forwards each winner; `None` is the first dead end it meets. */
  method ForwardAll(ents: Entities, group: GroupId, winners: map<Kind, Uuid>)
    returns (canonicals: Option<map<Kind, Uuid>>)
    requires forall k <- winners :: winners[k] in ents
    ensures canonicals.None? ==> Stuck(ents, group, winners)
    ensures canonicals.Some? ==> AllForwarded(ents, group, winners, canonicals.value, {})
  {
    var found: map<Kind, Uuid> := map[];
    var todo := winners.Keys;
    while todo != {}
      invariant todo <= winners.Keys && AllForwarded(ents, group, winners, found, todo)
      decreases todo
    {
      var k :| k in todo;
      var c := ForwardOne(ents, group, winners[k]);
      if c.None? {
        return None;
      }
      found := found[k := c.value];
      todo := todo - {k};
    }
    canonicals := Some(found);
  }

  ghost predicate AllForwarded(ents: Entities, group: GroupId, winners: map<Kind, Uuid>,
                               found: map<Kind, Uuid>, todo: set<Kind>)
    requires forall k <- winners :: winners[k] in ents
  {
    found.Keys == winners.Keys - todo
    && forall k <- found :: Forwarded(ents, group, winners[k]) == Some(found[k])
  }

  method ForwardOne(ents: Entities, group: GroupId, winner: Uuid) returns (c: Option<Uuid>)
    requires winner in ents
    ensures c == Forwarded(ents, group, winner)
  {
    if !ents[winner].merged {
      return Some(winner);
    }
    c := FollowMergedIntoChain(ents, group, winner);
  }

  function Conclude(canonicals: Option<map<Kind, Uuid>>): Resolved {
    if canonicals.None? then DeadEnd
    else if |canonicals.value| == 0 then NotFound
    else if |canonicals.value| == 1 then
      Existing(canonicals.value[TheKind(canonicals.value.Keys)])
    else AmbiguousEntity(canonicals.value)
  }

  lemma ConcludeAnswers(ents: Entities, group: GroupId, winners: map<Kind, Uuid>, canonicals: Option<map<Kind, Uuid>>)
    requires forall k <- winners :: winners[k] in ents
    requires canonicals.None? ==> Stuck(ents, group, winners)
    requires canonicals.Some? ==> AllForwarded(ents, group, winners, canonicals.value, {})
    ensures Answers(ents, group, winners, Conclude(canonicals))
  {
    if canonicals.Some? {
      assert |canonicals.value| == |canonicals.value.Keys|;
      assert |winners| == |winners.Keys| && canonicals.value.Keys == winners.Keys;
      if |canonicals.value| == 1 {
        var k := TheKind(canonicals.value.Keys);
        assert winners.Keys == {k} && Forwarded(ents, group, winners[k]) == Some(canonicals.value[k]);
      }
    }
  }

  method FindWinners(db: Db, group: GroupId, name: Name, scope: KindScope) returns (winners: map<Kind, Uuid>)
    modifies db`entities, db`mutations
    ensures winners == Winners(db.fold, old(db.entities), group, name, scope)
    ensures SameIdentities(old(db.entities), db.entities)
    ensures OnlyEntityWrites(old(db.mutations), db.mutations)
  {
    match scope {
      case Exact(kind) =>
        var u := GetEntityByNameCiWithScanFallback(db, name, group, kind);
        winners := if u.Some? then map[kind := u.value] else map[];
      case AnyKind =>
        winners := ResolveEntitiesByNameAnyKind(db, name, group);
    }
  }

  /** `resolve_entity_by_name`. */
  method ResolveEntityByName(db: Db, group: GroupId, name: Name, scope: KindScope) returns (r: Resolved)
    modifies db`entities, db`mutations
    ensures Answers(old(db.entities), group, Winners(db.fold, old(db.entities), group, name, scope), r)
    ensures SameIdentities(old(db.entities), db.entities)
    ensures OnlyEntityWrites(old(db.mutations), db.mutations)
  {
    ghost var ents := db.entities;
    var winners := FindWinners(db, group, name, scope);
    var canonicals := ForwardAll(db.entities, group, winners);
    r := Conclude(canonicals);
    ConcludeAnswers(db.entities, group, winners, canonicals);
    HealedAnswer(ents, db.entities, group, winners, r);
  }

  lemma HealedAnswer(ents: Entities, ents': Entities, group: GroupId, winners: map<Kind, Uuid>, r: Resolved)
    requires SameIdentities(ents, ents') && forall k <- winners :: winners[k] in ents
    requires Answers(ents', group, winners, r)
    ensures Answers(ents, group, winners, r)
  {
    forall k <- winners
      ensures Forwarded(ents, group, winners[k]) == Forwarded(ents', group, winners[k])
    {
      HealedWalk(ents, ents', group, winners[k], {winners[k]});
    }
    if r.DeadEnd? {
      var k :| k in winners && winners[k] in ents' && Forwarded(ents', group, winners[k]).None?;
      assert Forwarded(ents, group, winners[k]).None?;
    }
  }

  datatype ByUuid = Unknown | Live(uuid: Uuid) | NoCanonical

  /** `resolve_entity_by_uuid`. */
  method ResolveEntityByUuid(ents: Entities, group: GroupId, u: Uuid) returns (r: ByUuid)
    ensures r.Unknown? <==> u !in ents || ents[u].group != group
    ensures r.NoCanonical? <==> u in ents && ents[u].group == group && ents[u].merged
                                && forall c: Uuid :: !Reaches(ents, group, u, c)
    ensures r.Live? ==> && u in ents && ents[u].group == group
                        && if ents[u].merged then Reaches(ents, group, u, r.uuid) else r.uuid == u
  {
    if u !in ents || ents[u].group != group {
      return Unknown;
    }
    if !ents[u].merged {
      return Live(u);
    }
    var c := FollowMergedIntoChain(ents, group, u);
    r := if c.Some? then Live(c.value) else NoCanonical;
  }

  // In a forest.

  /** The candidates of an answer are live rows of the group, each of the kind it is listed under. */
  ghost predicate LiveRow(ents: Entities, group: GroupId, kind: Kind, u: Uuid) {
    u in ents && !ents[u].merged && ents[u].group == group && ents[u].Kind() == kind
  }

  lemma ForwardedIsLive(f: Folding, ents: Entities, group: GroupId, kind: Kind, name: Name, u: Uuid)
    requires Forest(ents) && u in ents && Matches(f, ents[u], group, kind, name)
    ensures Forwarded(ents, group, u).Some? && LiveRow(ents, group, kind, Forwarded(ents, group, u).value)
  {
    if ents[u].merged {
      ForestHasNoDeadEnds(ents, u);
    }
  }

  /** While merges keep their forest, resolution by name never meets a dead end: it answers NotFound
    * exactly when no row of the scope carries the name, and otherwise live rows of the group, one
    * per matching kind, so that an ambiguity is always between different entities. */
  lemma NamesNeverDeadEnd(f: Folding, ents: Entities, group: GroupId, name: Name, scope: KindScope, r: Resolved)
    requires Forest(ents) && Answers(ents, group, Winners(f, ents, group, name, scope), r)
    ensures r != DeadEnd
    ensures r.NotFound? <==> forall u <- ents ::
              ents[u].group == group && f.norm(ents[u].name) == f.norm(name) ==>
                scope.Exact? && ents[u].Kind() != scope.kind
    ensures r.Existing? ==> exists k :: LiveRow(ents, group, k, r.uuid) && (scope.Exact? ==> k == scope.kind)
    ensures r.AmbiguousEntity? ==>
              && scope.AnyKind? && |r.candidates| > 1
              && (forall k <- r.candidates :: LiveRow(ents, group, k, r.candidates[k]))
              && (forall k, l :: k in r.candidates && l in r.candidates && k != l ==>
                    r.candidates[k] != r.candidates[l])
  {
    var winners := Winners(f, ents, group, name, scope);
    forall k <- winners
      ensures var c := Forwarded(ents, group, winners[k]); c.Some? && LiveRow(ents, group, k, c.value)
    {
      ForwardedIsLive(f, ents, group, k, name, winners[k]);
    }
    NoWinnerNoRow(f, ents, group, name, scope);
    if r.AmbiguousEntity? {
      assert |winners| == |winners.Keys| && |r.candidates| == |r.candidates.Keys|;
    }
    if r.Existing? {
      var k :| winners.Keys == {k} && Forwarded(ents, group, winners[k]) == Some(r.uuid);
      assert LiveRow(ents, group, k, r.uuid);
    }
  }

  lemma NoWinnerNoRow(f: Folding, ents: Entities, group: GroupId, name: Name, scope: KindScope)
    ensures Winners(f, ents, group, name, scope) == map[] <==> forall u <- ents ::
              ents[u].group == group && f.norm(ents[u].name) == f.norm(name) ==>
                scope.Exact? && ents[u].Kind() != scope.kind
  {
    match scope
    case Exact(kind) =>
      LookupAgreesOnExistence(f, ents, group, kind, name);
      var winners := Winners(f, ents, group, name, scope);
      assert winners == map[] <==> winners.Keys == {};
    case AnyKind =>
      AnyKindAgreesOnExistence(f, ents, group, name);
      var winners := Winners(f, ents, group, name, scope);
      assert winners == map[] <==> winners.Keys == {};
  }

  /** After any sequence of merge calls that starts without tombstones. */
  lemma MergesLeaveNoDeadEnds(f: Folding, gs: seq<Graph>, n: nat, group: GroupId, name: Name, scope: KindScope,
                              r: Resolved)
    requires Run(gs) && n < |gs|
    requires Answers(gs[n].entities, group, Winners(f, gs[n].entities, group, name, scope), r)
    ensures r != DeadEnd
  {
    RunsKeepForest(gs, n);
    NamesNeverDeadEnd(f, gs[n].entities, group, name, scope, r);
  }
}
