/** The name lookups as the connection runs them: the indexed probe with scan fallback for one kind,
  * and the broad lookup across all kinds, each with the healing writes that follow a scan. */
module NameQueries {
  import opened Common
  import opened PropertyGraph
  import opened NameLookup
  import opened Store

  ghost predicate OnlyEntityWrites(before: seq<Mutation>, after: seq<Mutation>) {
    && |before| <= |after| && after[..|before|] == before
    && forall i :: |before| <= i < |after| ==> after[i].EntityWrite?
  }

  /** Every row that changed in between has a write logged in between. */
  ghost predicate HealsLogged(ents: Entities, ents': Entities, before: seq<Mutation>, after: seq<Mutation>) {
    |before| <= |after| && forall u <- ents :: u in ents' && (ents'[u] != ents[u] ==> LoggedSince(before, after, u))
  }

  ghost predicate LoggedSince(before: seq<Mutation>, after: seq<Mutation>, u: Uuid)
    requires |before| <= |after|
  {
    exists i :: |before| <= i < |after| && after[i] == EntityWrite(u)
  }

  lemma LoggedTwice(e0: Entities, e1: Entities, e2: Entities, a: seq<Mutation>, b: seq<Mutation>, c: seq<Mutation>)
    requires HealsLogged(e0, e1, a, b) && HealsLogged(e1, e2, b, c) && |b| <= |c| && c[..|b|] == b
    ensures HealsLogged(e0, e2, a, c)
  {
    forall u <- e0 | e2[u] != e0[u]
      ensures LoggedSince(a, c, u)
    {
      if e1[u] != e0[u] {
        var i :| |a| <= i < |b| && b[i] == EntityWrite(u);
        assert c[..|b|][i] == b[i];
      }
    }
  }

  lemma OnlyTwice(a: seq<Mutation>, b: seq<Mutation>, c: seq<Mutation>)
    requires OnlyEntityWrites(a, b) && OnlyEntityWrites(b, c)
    ensures OnlyEntityWrites(a, c)
  {
    assert c[..|a|] == b[..|a|];
    forall i | |a| <= i < |b|
      ensures c[i] == b[i]
    {
      assert c[..|b|][i] == b[i];
    }
  }

  /** `self_heal_lookup_key`. */
  method SelfHealLookupKey(db: Db, u: Uuid)
    requires u in db.entities
    modifies db`entities, db`mutations
    ensures db.entities == Heal(db.fold, old(db.entities), u)
    ensures OnlyEntityWrites(old(db.mutations), db.mutations)
    ensures HealsLogged(old(db.entities), db.entities, old(db.mutations), db.mutations)
  {
    var e := db.entities[u];
    var key := LookupKey(db.fold, e.group, e.Kind(), e.name);
    db.SetEntity(u, e.(storedKind := Some(e.Kind()), lookupKey := Some(key)));
    assert db.mutations[|old(db.mutations)|] == EntityWrite(u);
  }

  /** `get_entity_by_name_ci_with_scan_fallback`. */
  method GetEntityByNameCiWithScanFallback(db: Db, name: Name, group: GroupId, kind: Kind) returns (r: Option<Uuid>)
    modifies db`entities, db`mutations
    ensures r == LookupResult(db.fold, old(db.entities), group, kind, name)
    ensures db.entities == LookupEffect(db.fold, old(db.entities), group, kind, name)
    ensures OnlyEntityWrites(old(db.mutations), db.mutations)
    ensures HealsLogged(old(db.entities), db.entities, old(db.mutations), db.mutations)
  {
    var hit := Probe(db.fold, db.entities, group, kind, name);
    if hit.Some? && Matches(db.fold, db.entities[hit.value], group, kind, name) {
      return hit;
    }
    r := Scan(db.fold, db.entities, group, kind, name);
    if r.Some? {
      SelfHealLookupKey(db, r.value);
    }
  }

  /** The rows of the group that carry the name, of whatever kind. */
  function Namesakes(f: Folding, ents: Entities, group: GroupId, name: Name): set<Uuid> {
    set u | u in ents && ents[u].group == group && f.norm(ents[u].name) == f.norm(name)
  }

  function HealSet(f: Folding, ents: Entities, rows: set<Uuid>): Entities {
    map u | u in ents :: if u in rows then Heal(f, ents, u)[u] else ents[u]
  }

  /** `resolve_entities_by_name_any_kind`: a probe per known kind; on a total miss one ordered scan,
    * whose first row per kind wins and which heals every row it meets. */
  method ResolveEntitiesByNameAnyKind(db: Db, name: Name, group: GroupId) returns (winners: map<Kind, Uuid>)
    modifies db`entities, db`mutations
    ensures winners.Keys == WinningKinds(db.fold, old(db.entities), group, name)
    ensures forall k <- winners :: LookupResult(db.fold, old(db.entities), group, k, name) == Some(winners[k])
    ensures db.entities == AnyKindEffect(db.fold, old(db.entities), group, name)
    ensures OnlyEntityWrites(old(db.mutations), db.mutations)
    ensures HealsLogged(old(db.entities), db.entities, old(db.mutations), db.mutations)
  {
    winners := ProbeKinds(db, name, group);
    if |winners| == 0 {
      assert winners.Keys == {};
      winners := ScanKinds(db, name, group);
    }
  }

  method ProbeKinds(db: Db, name: Name, group: GroupId) returns (winners: map<Kind, Uuid>)
    ensures winners.Keys == ProbedKinds(db.fold, db.entities, group, name)
    ensures forall k <- winners :: VerifiedProbe(db.fold, db.entities, group, k, name) == Some(winners[k])
  {
    winners := map[];
    var all := KindsOf(db.entities);
    var todo := all;
    while todo != {}
      invariant todo <= all
      invariant winners.Keys == set k | k in all - todo && VerifiedProbe(db.fold, db.entities, group, k, name).Some?
      invariant forall k <- winners :: VerifiedProbe(db.fold, db.entities, group, k, name) == Some(winners[k])
      decreases todo
    {
      var k :| k in todo;
      var hit := VerifiedProbe(db.fold, db.entities, group, k, name);
      if hit.Some? {
        winners := winners[k := hit.value];
      }
      todo := todo - {k};
    }
  }

  /** The first row of each kind among `done`. */
  ghost predicate FirstPerKind(ents: Entities, done: set<Uuid>, winners: map<Kind, Uuid>)
    requires done <= ents.Keys
  {
    && winners.Keys == (set u | u in done :: ents[u].Kind())
    && forall k <- winners ::
         && winners[k] in done && ents[winners[k]].Kind() == k
         && forall u <- done :: ents[u].Kind() == k ==> Before(ents, winners[k], u)
  }

  lemma FirstPerKindStep(ents: Entities, done: set<Uuid>, winners: map<Kind, Uuid>, u: Uuid)
    requires done <= ents.Keys && u in ents && FirstPerKind(ents, done, winners)
    requires forall d <- done :: Before(ents, d, u)
    ensures FirstPerKind(ents, done + {u},
                         if ents[u].Kind() in winners then winners else winners[ents[u].Kind() := u])
  {
  }

  lemma HealOneMore(f: Folding, ents: Entities, done: set<Uuid>, u: Uuid)
    requires u in ents && u !in done
    ensures Heal(f, HealSet(f, ents, done), u) == HealSet(f, ents, done + {u})
  {
  }

  /** The scan after the rows outside `todo`: they are healed, come first, and have given the winners. */
  ghost predicate Scanning(f: Folding, ents: Entities, all: set<Uuid>, todo: set<Uuid>, healed: Entities,
                           winners: map<Kind, Uuid>) {
    && todo <= all <= ents.Keys && healed == HealSet(f, ents, all - todo)
    && (forall d, t :: d in all - todo && t in todo ==> Before(ents, d, t))
    && FirstPerKind(ents, all - todo, winners)
  }

  lemma ScanNext(f: Folding, ents: Entities, all: set<Uuid>, todo: set<Uuid>, healed: Entities,
                 winners: map<Kind, Uuid>, u: Uuid)
    requires Scanning(f, ents, all, todo, healed, winners) && IsFirst(ents, todo, u)
    ensures u in healed && healed[u].Kind() == ents[u].Kind()
    ensures Scanning(f, ents, all, todo - {u}, Heal(f, healed, u),
                     if ents[u].Kind() in winners then winners else winners[ents[u].Kind() := u])
  {
    var done := all - todo;
    assert all - (todo - {u}) == done + {u};
    FirstPerKindStep(ents, done, winners, u);
    HealOneMore(f, ents, done, u);
  }

  lemma SameFirst(f: Folding, ents: Entities, all: set<Uuid>, todo: set<Uuid>, healed: Entities,
                  winners: map<Kind, Uuid>, u: Uuid)
    requires Scanning(f, ents, all, todo, healed, winners)
    ensures todo <= healed.Keys && (IsFirst(healed, todo, u) <==> IsFirst(ents, todo, u))
  {
    assert forall v <- todo :: v in healed && healed[v].createdAt == ents[v].createdAt;
  }

  method ScanKinds(db: Db, name: Name, group: GroupId) returns (winners: map<Kind, Uuid>)
    modifies db`entities, db`mutations
    ensures winners.Keys == ScannedKinds(db.fold, old(db.entities), group, name)
    ensures forall k <- winners :: Scan(db.fold, old(db.entities), group, k, name) == Some(winners[k])
    ensures db.entities == HealAll(db.fold, old(db.entities), group, name)
    ensures OnlyEntityWrites(old(db.mutations), db.mutations)
    ensures HealsLogged(old(db.entities), db.entities, old(db.mutations), db.mutations)
  {
    winners := map[];
    ghost var ents := db.entities;
    var all := Namesakes(db.fold, db.entities, group, name);
    var todo := all;
    while todo != {}
      invariant Scanning(db.fold, ents, all, todo, db.entities, winners)
      invariant OnlyEntityWrites(old(db.mutations), db.mutations)
      invariant HealsLogged(ents, db.entities, old(db.mutations), db.mutations)
      decreases todo
    {
      ghost var soFar, log := db.entities, db.mutations;
      var u := First(db.entities, todo).value;
      SameFirst(db.fold, ents, all, todo, soFar, winners, u);
      ScanNext(db.fold, ents, all, todo, soFar, winners, u);
      var k := db.entities[u].Kind();
      SelfHealLookupKey(db, u);
      LoggedTwice(ents, soFar, db.entities, old(db.mutations), log, db.mutations);
      OnlyTwice(old(db.mutations), log, db.mutations);
      if k !in winners {
        winners := winners[k := u];
      }
      todo := todo - {u};
    }
    ScanEnds(db.fold, ents, group, name, db.entities, winners);
  }

  lemma ScanEnds(f: Folding, ents: Entities, group: GroupId, name: Name, healed: Entities, winners: map<Kind, Uuid>)
    requires Scanning(f, ents, Namesakes(f, ents, group, name), {}, healed, winners)
    ensures winners.Keys == ScannedKinds(f, ents, group, name)
    ensures forall k <- winners :: Scan(f, ents, group, k, name) == Some(winners[k])
    ensures healed == HealAll(f, ents, group, name)
  {
    var all := Namesakes(f, ents, group, name);
    assert all - {} == all;
    FirstPerKindIsScan(f, ents, group, name, winners);
  }

  lemma FirstPerKindIsScan(f: Folding, ents: Entities, group: GroupId, name: Name, winners: map<Kind, Uuid>)
    requires FirstPerKind(ents, Namesakes(f, ents, group, name), winners)
    ensures winners.Keys == ScannedKinds(f, ents, group, name)
    ensures forall k <- winners :: Scan(f, ents, group, k, name) == Some(winners[k])
  {
    var all := Namesakes(f, ents, group, name);
    forall k <- winners
      ensures Scan(f, ents, group, k, name) == Some(winners[k])
    {
      var rows := MatchingRows(f, ents, group, k, name);
      assert winners[k] in rows;
      var u := First(ents, rows).value;
      assert u in all && Before(ents, winners[k], u) && Before(ents, u, winners[k]);
    }
    forall k <- ScannedKinds(f, ents, group, name)
      ensures k in winners
    {
      var u := Scan(f, ents, group, k, name).value;
      assert u in MatchingRows(f, ents, group, k, name) && u in all;
    }
  }
}
