/** Resolving one cross-group endpoint: the name lookup, the ambiguity check, and the walk from a
  * tombstone to its canonical. */
module PointerResolution {
  import opened Common
  import opened PropertyGraph
  import opened NameLookup
  import opened Forwarding
  import opened Store
  import opened NameQueries

  datatype Resolution = Resolution(state: BindingState, uuid: Option<Uuid>)

  datatype Winner = NoWinner | Winner(uuid: Uuid) | ManyKinds

  /** The single element of a singleton. */
  function TheKind(kinds: set<Kind>): (k: Kind)
    requires |kinds| == 1
    ensures kinds == {k}
  {
    SingletonElement(kinds);
    var k :| k in kinds;
    k
  }

  lemma SingletonElement(kinds: set<Kind>)
    requires |kinds| == 1
    ensures exists k :: kinds == {k}
    ensures forall k, l :: k in kinds && l in kinds ==> k == l
  {
    var k :| k in kinds;
    assert |kinds - {k}| == 0;
    assert kinds == {k} + (kinds - {k});
  }

  function NamedWinner(f: Folding, ents: Entities, group: GroupId, name: Name, kind: Option<Kind>): (w: Winner)
    ensures w.Winner? ==> w.uuid in ents && ents[w.uuid].group == group
  {
    if kind.Some? then
      LookupAgreesOnExistence(f, ents, group, kind.value, name);
      match LookupResult(f, ents, group, kind.value, name)
      case None => NoWinner
      case Some(u) => Winner(u)
    else
      var kinds := WinningKinds(f, ents, group, name);
      if |kinds| > 1 then ManyKinds
      else if |kinds| == 0 then NoWinner
      else
        LookupAgreesOnExistence(f, ents, group, TheKind(kinds), name);
        match LookupResult(f, ents, group, TheKind(kinds), name)
        case None => NoWinner
        case Some(u) => Winner(u)
  }

  /** What the lookup leaves in the entity table: healed rows, if it had to scan. */
  function LookupWrites(f: Folding, ents: Entities, group: GroupId, name: Name, kind: Option<Kind>): Entities {
    if kind.Some? then LookupEffect(f, ents, group, kind.value, name)
    else AnyKindEffect(f, ents, group, name)
  }

  /** `count_active_entities_by_name_ci`, which folds the stored name with the database's `lower`. */
  function ActiveNamesakes(f: Folding, ents: Entities, group: GroupId, kind: Kind, name: Name): set<Uuid> {
    set u | u in ents && f.lower(ents[u].name) == f.norm(name) && ents[u].group == group
            && ents[u].Kind() == kind && !ents[u].merged
  }

  /** The winner of the lookup, checked for live namesakes of its kind and forwarded. */
  function ForwardWinner(f: Folding, ents: Entities, group: GroupId, name: Name, u: Uuid): (r: Resolution)
    requires u in ents
    ensures r.state.Bound? <==> r.uuid.Some?
    ensures r.uuid.Some? ==> r.uuid.value in ents
  {
    if |ActiveNamesakes(f, ents, group, ents[u].Kind(), name)| > 1 then Resolution(Ambiguous, None)
    else if !ents[u].merged then Resolution(Bound, Some(u))
    else
      WalkIsReach(ents, group, u);
      match Walk(ents, group, u)
      case None => Resolution(Unbound, None)
      case Some(c) => Resolution(Bound, Some(c))
  }

  function ResolveEndpoint(f: Folding, ents: Entities, group: GroupId, name: Name, kind: Option<Kind>): (r: Resolution)
    ensures r.state.Bound? <==> r.uuid.Some?
    ensures r.uuid.Some? ==> r.uuid.value in ents
  {
    match NamedWinner(f, ents, group, name, kind)
    case ManyKinds => Resolution(Ambiguous, None)
    case NoWinner => Resolution(Unbound, None)
    case Winner(u) => ForwardWinner(f, ents, group, name, u)
  }

  /** Healing changes no identity, so it changes nothing that resolution reads after the lookup. */
  lemma LookupWritesKeepIdentities(f: Folding, ents: Entities, group: GroupId, name: Name, kind: Option<Kind>)
    ensures SameIdentities(ents, LookupWrites(f, ents, group, name, kind))
  {
  }

  /** With the group's index in order a lookup writes nothing at all. */
  lemma KeyedLookupWritesNothing(f: Folding, ents: Entities, group: GroupId, name: Name, kind: Option<Kind>)
    requires KeyedIn(f, ents, group)
    ensures LookupWrites(f, ents, group, name, kind) == ents
  {
    if kind.Some? {
      LookupIsScanWhenKeyed(f, ents, group, kind.value, name);
    } else {
      AnyKindIsScanWhenKeyed(f, ents, group, name);
    }
  }

  /** A lookup into any group keeps foreign keys out of every group, and leaves every group's index in order
    * that was so, as long as the key format can tell the two groups apart. */
  lemma LookupKeepsKeyed(f: Folding, ents: Entities, group: GroupId, name: Name, kind: Option<Kind>, other: GroupId)
    requires NoForeignKeys(f, ents, other) && (group == other || (SeparatorFree(group) && SeparatorFree(other)))
    ensures NoForeignKeys(f, LookupWrites(f, ents, group, name, kind), other)
    ensures KeyedIn(f, ents, other) ==> KeyedIn(f, LookupWrites(f, ents, group, name, kind), other)
  {
    var ents' := LookupWrites(f, ents, group, name, kind);
    if group == other && KeyedIn(f, ents, other) {
      KeyedLookupWritesNothing(f, ents, group, name, kind);
    }
    forall u <- ents' | ents'[u].group != other
      ensures KeyElsewhere(f, ents'[u], other)
    {
      assert ents[u].group != other && KeyElsewhere(f, ents[u], other);
      if ents'[u] != ents[u] {
        HealedKeyElsewhere(f, ents'[u], group, other);
      }
    }
  }

  lemma HealedKeyElsewhere(f: Folding, e: Entity, group: GroupId, other: GroupId)
    requires e.group == group != other && SeparatorFree(group) && SeparatorFree(other) && FreshKey(f, e)
    ensures KeyElsewhere(f, e, other)
  {
    forall k, n
      ensures e.lookupKey != Some(LookupKey(f, other, k, n))
    {
      KeysApart(f, group, e.Kind(), e.name, other, k, n);
    }
  }

  /** The rows of one group. */
  ghost predicate SameGroupRows(ents: Entities, ents': Entities, group: GroupId) {
    && (forall u <- ents :: ents[u].group == group ==> u in ents' && ents'[u] == ents[u])
    && (forall u <- ents' :: ents'[u].group == group ==> u in ents && ents[u] == ents'[u])
  }

  lemma SameScan(f: Folding, ents: Entities, ents': Entities, group: GroupId, kind: Kind, name: Name)
    requires SameGroupRows(ents, ents', group)
    ensures Scan(f, ents, group, kind, name) == Scan(f, ents', group, kind, name)
  {
    var rows, rows' := MatchingRows(f, ents, group, kind, name), MatchingRows(f, ents', group, kind, name);
    assert rows == rows';
    if rows != {} {
      var u, v := First(ents, rows).value, First(ents', rows').value;
      assert Before(ents, u, v) && Before(ents', v, u);
    }
  }

  lemma SameWalk(ents: Entities, ents': Entities, group: GroupId, u: Uuid, visited: set<Uuid>)
    requires SameGroupRows(ents, ents', group) && u in ents && u in ents' && ents[u].group == group
    ensures WalkFrom(ents, group, u, visited) == WalkFrom(ents', group, u, visited)
    decreases ents.Keys - visited
  {
    var next := ents[u].mergedInto;
    if next.Some? && next.value !in visited && next.value in ents && ents[next.value].group == group
       && ents[next.value].merged
    {
      SameWalk(ents, ents', group, next.value, visited + {next.value});
    }
  }

  /** With no foreign keys in either table, resolution into a group reads that group's rows only, stale keys
    * and all. */
  lemma ResolutionReadsOneGroup(f: Folding, ents: Entities, ents': Entities, group: GroupId, name: Name,
                                kind: Option<Kind>)
    requires NoForeignKeys(f, ents, group) && NoForeignKeys(f, ents', group) && SameGroupRows(ents, ents', group)
    ensures ResolveEndpoint(f, ents, group, name, kind) == ResolveEndpoint(f, ents', group, name, kind)
  {
    SameWinner(f, ents, ents', group, name, kind);
    var w := NamedWinner(f, ents, group, name, kind);
    if w.Winner? {
      assert ActiveNamesakes(f, ents, group, ents[w.uuid].Kind(), name)
          == ActiveNamesakes(f, ents', group, ents[w.uuid].Kind(), name);
      SameWalk(ents, ents', group, w.uuid, {w.uuid});
    }
  }

  lemma SameWinner(f: Folding, ents: Entities, ents': Entities, group: GroupId, name: Name, kind: Option<Kind>)
    requires NoForeignKeys(f, ents, group) && NoForeignKeys(f, ents', group) && SameGroupRows(ents, ents', group)
    ensures NamedWinner(f, ents, group, name, kind) == NamedWinner(f, ents', group, name, kind)
  {
    if kind.Some? {
      SameLookup(f, ents, ents', group, kind.value, name);
    } else {
      SameWinningKinds(f, ents, ents', group, name);
      var kinds := WinningKinds(f, ents, group, name);
      if |kinds| == 1 {
        SameLookup(f, ents, ents', group, TheKind(kinds), name);
      }
    }
  }

  lemma SameProbe(f: Folding, ents: Entities, ents': Entities, group: GroupId, kind: Kind, name: Name)
    requires NoForeignKeys(f, ents, group) && NoForeignKeys(f, ents', group) && SameGroupRows(ents, ents', group)
    ensures VerifiedProbe(f, ents, group, kind, name) == VerifiedProbe(f, ents', group, kind, name)
  {
    var key := LookupKey(f, group, kind, name);
    var rows, rows' := KeyedRows(ents, key), KeyedRows(ents', key);
    forall u
      ensures u in rows <==> u in rows'
      ensures u in rows ==> ents[u].group == group && u in ents' && ents'[u] == ents[u]
    {
      assert u in ents && ents[u].group != group ==> KeyElsewhere(f, ents[u], group);
      assert u in ents' && ents'[u].group != group ==> KeyElsewhere(f, ents'[u], group);
    }
    assert rows == rows';
    if rows != {} {
      var u, v := First(ents, rows).value, First(ents', rows').value;
      assert Before(ents, u, v) && Before(ents', v, u);
    }
  }

  lemma SameLookup(f: Folding, ents: Entities, ents': Entities, group: GroupId, kind: Kind, name: Name)
    requires NoForeignKeys(f, ents, group) && NoForeignKeys(f, ents', group) && SameGroupRows(ents, ents', group)
    ensures LookupResult(f, ents, group, kind, name) == LookupResult(f, ents', group, kind, name)
  {
    SameProbe(f, ents, ents', group, kind, name);
    SameScan(f, ents, ents', group, kind, name);
  }

  lemma SameWinningKinds(f: Folding, ents: Entities, ents': Entities, group: GroupId, name: Name)
    requires NoForeignKeys(f, ents, group) && NoForeignKeys(f, ents', group) && SameGroupRows(ents, ents', group)
    ensures WinningKinds(f, ents, group, name) == WinningKinds(f, ents', group, name)
  {
    forall k: Kind
      ensures k in ProbedKinds(f, ents, group, name) <==> k in ProbedKinds(f, ents', group, name)
      ensures k in ScannedKinds(f, ents, group, name) <==> k in ScannedKinds(f, ents', group, name)
    {
      SameProbe(f, ents, ents', group, k, name);
      SameScan(f, ents, ents', group, k, name);
      ScannedKindIsAKind(f, ents, group, name, k);
      ScannedKindIsAKind(f, ents', group, name, k);
      ProbedKindIsAKind(f, ents, group, name, k);
      ProbedKindIsAKind(f, ents', group, name, k);
    }
    assert ProbedKinds(f, ents, group, name) == ProbedKinds(f, ents', group, name);
    assert ScannedKinds(f, ents, group, name) == ScannedKinds(f, ents', group, name);
  }

  lemma ProbedKindIsAKind(f: Folding, ents: Entities, group: GroupId, name: Name, k: Kind)
    ensures k in ProbedKinds(f, ents, group, name) <==> VerifiedProbe(f, ents, group, k, name).Some?
  {
    var r := VerifiedProbe(f, ents, group, k, name);
    if r.Some? {
      assert Matches(f, ents[r.value], group, k, name) && ents[r.value].Kind() == k;
    }
  }

  lemma ScannedKindIsAKind(f: Folding, ents: Entities, group: GroupId, name: Name, k: Kind)
    ensures k in ScannedKinds(f, ents, group, name) <==> Scan(f, ents, group, k, name).Some?
  {
    var r := Scan(f, ents, group, k, name);
    if r.Some? {
      assert r.value in MatchingRows(f, ents, group, k, name);
      assert ents[r.value].Kind() == k;
    }
  }

  method ResolveWinner(f: Folding, ents: Entities, group: GroupId, name: Name, u: Uuid) returns (r: Resolution)
    requires u in ents
    ensures r == ForwardWinner(f, ents, group, name, u)
  {
    if |ActiveNamesakes(f, ents, group, ents[u].Kind(), name)| > 1 {
      return Resolution(Ambiguous, None);
    }
    if !ents[u].merged {
      return Resolution(Bound, Some(u));
    }
    var c := FollowMergedIntoChain(ents, group, u);
    r := if c.Some? then Resolution(Bound, c) else Resolution(Unbound, None);
  }

  lemma HealedWinner(f: Folding, ents: Entities, ents': Entities, group: GroupId, name: Name, u: Uuid)
    requires SameIdentities(ents, ents') && u in ents
    ensures ForwardWinner(f, ents, group, name, u) == ForwardWinner(f, ents', group, name, u)
  {
    assert ActiveNamesakes(f, ents, group, ents[u].Kind(), name)
        == ActiveNamesakes(f, ents', group, ents[u].Kind(), name);
    HealedWalk(ents, ents', group, u, {u});
  }

  /** `resolve_endpoint_kind`: the lookup, which may heal rows, then the ambiguity check and the walk
    * on the healed table. */
  method ResolveEndpointKind(db: Db, group: GroupId, name: Name, kind: Option<Kind>) returns (r: Resolution)
    modifies db`entities, db`mutations
    ensures r == ResolveEndpoint(db.fold, old(db.entities), group, name, kind)
    ensures db.entities == LookupWrites(db.fold, old(db.entities), group, name, kind)
    ensures OnlyEntityWrites(old(db.mutations), db.mutations)
    ensures HealsLogged(old(db.entities), db.entities, old(db.mutations), db.mutations)
  {
    ghost var ents := db.entities;
    LookupWritesKeepIdentities(db.fold, ents, group, name, kind);
    var winner;
    if kind.Some? {
      winner := GetEntityByNameCiWithScanFallback(db, name, group, kind.value);
    } else {
      var winners := ResolveEntitiesByNameAnyKind(db, name, group);
      assert winners.Keys == WinningKinds(db.fold, ents, group, name);
      if |winners.Keys| > 1 {
        return Resolution(Ambiguous, None);
      }
      winner := if |winners.Keys| == 0 then None else Some(winners[TheKind(winners.Keys)]);
    }
    if winner.None? {
      return Resolution(Unbound, None);
    }
    assert NamedWinner(db.fold, ents, group, name, kind) == Winner(winner.value);
    r := ResolveWinner(db.fold, db.entities, group, name, winner.value);
    HealedWinner(db.fold, ents, db.entities, group, name, winner.value);
  }

  lemma HealedWalk(ents: Entities, ents': Entities, group: GroupId, u: Uuid, visited: set<Uuid>)
    requires SameIdentities(ents, ents') && u in ents
    ensures WalkFrom(ents, group, u, visited) == WalkFrom(ents', group, u, visited)
    decreases ents.Keys - visited
  {
    var next := ents[u].mergedInto;
    if next.Some? && next.value !in visited && next.value in ents && ents[next.value].group == group
       && ents[next.value].merged
    {
      HealedWalk(ents, ents', group, next.value, visited + {next.value});
    }
  }
}
