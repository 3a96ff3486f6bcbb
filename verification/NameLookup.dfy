/** Name resolution: the `lookup_key` index, the plain group scan it must agree with, the
  * combination used where a miss matters, and the self-heal that follows a scan hit. */
module NameLookup {
  import opened Common
  import opened PropertyGraph

  const KEY_SEPARATOR: char := '\U{1F}'

  /** The text functions the code applies to names: `norm` is trim plus lower-case in the host,
    * `lower` is the database's own lower-casing, which does not trim, `clean` also strips control
    * characters before `norm`, and `trim` only trims. */
  datatype Folding = Folding(
    norm: string -> string,
    lower: string -> string,
    clean: string -> string,
    trim: string -> string)

  function LookupKey(f: Folding, group: GroupId, kind: Kind, name: Name): string {
    group + [KEY_SEPARATOR] + kind + [KEY_SEPARATOR] + f.norm(name)
  }

  predicate SeparatorFree(s: string) {
    KEY_SEPARATOR !in s
  }

  lemma {:induction false} SplitAtSeparator(a: string, b: string, x: string, y: string)
    requires SeparatorFree(a) && SeparatorFree(b)
    requires a + [KEY_SEPARATOR] + x == b + [KEY_SEPARATOR] + y
    ensures a == b && x == y
  {
    var s, t := a + [KEY_SEPARATOR] + x, b + [KEY_SEPARATOR] + y;
    assert forall i | 0 <= i < |a| :: s[i] == a[i] != KEY_SEPARATOR;
    assert forall i | 0 <= i < |b| :: t[i] == b[i] != KEY_SEPARATOR;
    assert s[|a|] == KEY_SEPARATOR && t[|b|] == KEY_SEPARATOR;
    assert |a| == |b|;
    assert a == s[..|a|] && b == t[..|b|];
    assert x == s[|a| + 1..] && y == t[|b| + 1..];
  }

  /** Two keys agree exactly when group, kind and folded name do, whatever the names contain. */
  lemma LookupKeyInjective(f: Folding, g: GroupId, k: Kind, n: Name, g': GroupId, k': Kind, n': Name)
    requires SeparatorFree(g) && SeparatorFree(k) && SeparatorFree(g') && SeparatorFree(k')
    ensures LookupKey(f, g, k, n) == LookupKey(f, g', k', n')
            <==> g == g' && k == k' && f.norm(n) == f.norm(n')
  {
    if LookupKey(f, g, k, n) == LookupKey(f, g', k', n') {
      var x, y := k + [KEY_SEPARATOR] + f.norm(n), k' + [KEY_SEPARATOR] + f.norm(n');
      assert g + [KEY_SEPARATOR] + x == LookupKey(f, g, k, n);
      assert g' + [KEY_SEPARATOR] + y == LookupKey(f, g', k', n');
      SplitAtSeparator(g, g', x, y);
      SplitAtSeparator(k, k', f.norm(n), f.norm(n'));
    }
  }

  // ORDER BY created_at ASC, uuid ASC LIMIT 1

  predicate Before(ents: Entities, a: Uuid, b: Uuid)
    requires a in ents && b in ents
  {
    ents[a].createdAt < ents[b].createdAt || (ents[a].createdAt == ents[b].createdAt && a <= b)
  }

  predicate IsFirst(ents: Entities, rows: set<Uuid>, u: Uuid)
    requires rows <= ents.Keys
  {
    u in rows && forall v | v in rows :: Before(ents, u, v)
  }

  lemma FirstExists(ents: Entities, rows: set<Uuid>)
    requires rows <= ents.Keys && rows != {}
    ensures exists u :: IsFirst(ents, rows, u)
  {
    var u :| u in rows;
    if rows == {u} {
      assert IsFirst(ents, rows, u);
    } else {
      var rest := rows - {u};
      FirstExists(ents, rest);
      var w :| IsFirst(ents, rest, w);
      var first := if Before(ents, u, w) then u else w;
      forall v | v in rows
        ensures Before(ents, first, v)
      {
        assert v == u || v in rest;
      }
      assert IsFirst(ents, rows, first);
    }
  }

  function First(ents: Entities, rows: set<Uuid>): (r: Option<Uuid>)
    requires rows <= ents.Keys
    ensures r.None? <==> rows == {}
    ensures r.Some? ==> IsFirst(ents, rows, r.value)
  {
    if rows == {} then None
    else
      FirstExists(ents, rows);
      var u :| u in rows && IsFirst(ents, rows, u);
      Some(u)
  }

  /** The row is live under that group, kind and (folded) name. */
  predicate Matches(f: Folding, e: Entity, group: GroupId, kind: Kind, name: Name) {
    e.group == group && e.Kind() == kind && f.norm(e.name) == f.norm(name)
  }

  function MatchingRows(f: Folding, ents: Entities, group: GroupId, kind: Kind, name: Name): set<Uuid> {
    set u | u in ents && Matches(f, ents[u], group, kind, name)
  }

  function KeyedRows(ents: Entities, key: string): set<Uuid> {
    set u | u in ents && ents[u].lookupKey == Some(key)
  }

  /** The authority: the plain scan of the group, first match in `created_at, uuid` order. */
  function Scan(f: Folding, ents: Entities, group: GroupId, kind: Kind, name: Name): Option<Uuid> {
    First(ents, MatchingRows(f, ents, group, kind, name))
  }

  /** The indexed probe, before its hit is checked against the live row. */
  function Probe(f: Folding, ents: Entities, group: GroupId, kind: Kind, name: Name): Option<Uuid> {
    First(ents, KeyedRows(ents, LookupKey(f, group, kind, name)))
  }

  /** The indexed probe with its hit re-verified: a stale key reads as a miss. */
  function VerifiedProbe(f: Folding, ents: Entities, group: GroupId, kind: Kind, name: Name): Option<Uuid> {
    var hit := Probe(f, ents, group, kind, name);
    if hit.Some? && Matches(f, ents[hit.value], group, kind, name) then hit else None
  }

  /** What a self-heal of row `u` leaves: kind and key rewritten from the row itself. */
  function Heal(f: Folding, ents: Entities, u: Uuid): Entities
    requires u in ents
  {
    var e := ents[u];
    ents[u := e.(storedKind := Some(e.Kind()), lookupKey := Some(LookupKey(f, e.group, e.Kind(), e.name)))]
  }

  function LookupResult(f: Folding, ents: Entities, group: GroupId, kind: Kind, name: Name): Option<Uuid> {
    var hit := VerifiedProbe(f, ents, group, kind, name);
    if hit.Some? then hit else Scan(f, ents, group, kind, name)
  }

  function LookupEffect(f: Folding, ents: Entities, group: GroupId, kind: Kind, name: Name): Entities {
    var scanned := Scan(f, ents, group, kind, name);
    if VerifiedProbe(f, ents, group, kind, name).None? && scanned.Some? then
      Heal(f, ents, scanned.value)
    else
      ents
  }

  predicate FreshKey(f: Folding, e: Entity) {
    e.storedKind.Some? && e.lookupKey == Some(LookupKey(f, e.group, e.Kind(), e.name))
  }

  /** The key is none that a lookup into `group` would ask for. */
  ghost predicate KeyElsewhere(f: Folding, e: Entity, group: GroupId) {
    forall kind, name :: e.lookupKey != Some(LookupKey(f, group, kind, name))
  }

  /** The index is in order for one group: the group's own rows carry their keys, under kinds that the
    * key format can carry, and no other row carries a key of the group. */
  ghost predicate KeyedIn(f: Folding, ents: Entities, group: GroupId) {
    forall u <- ents ::
      if ents[u].group == group then FreshKey(f, ents[u]) && SeparatorFree(ents[u].Kind())
      else KeyElsewhere(f, ents[u], group)
  }

  /** No row of another group carries a key of this group; the group's own keys may be stale. */
  ghost predicate NoForeignKeys(f: Folding, ents: Entities, group: GroupId) {
    forall u <- ents :: ents[u].group != group ==> KeyElsewhere(f, ents[u], group)
  }

  lemma SameLengthPrefix(a: string, x: string, y: string)
    requires a + x == a + y
    ensures x == y
  {
    assert x == (a + x)[|a|..] && y == (a + y)[|a|..];
  }

  /** It is in order for every group once all keys are fresh and nothing holds the separator. */
  lemma FreshKeysAreKeyed(f: Folding, ents: Entities, group: GroupId)
    requires forall u <- ents ::
               FreshKey(f, ents[u]) && SeparatorFree(ents[u].group) && SeparatorFree(ents[u].Kind())
    requires SeparatorFree(group)
    ensures KeyedIn(f, ents, group)
  {
    forall u <- ents | ents[u].group != group
      ensures KeyElsewhere(f, ents[u], group)
    {
      var e := ents[u];
      forall kind, name
        ensures e.lookupKey != Some(LookupKey(f, group, kind, name))
      {
        KeysApart(f, e.group, e.Kind(), e.name, group, kind, name);
      }
    }
  }

  lemma KeysApart(f: Folding, g: GroupId, k: Kind, n: Name, g': GroupId, k': Kind, n': Name)
    requires SeparatorFree(g) && SeparatorFree(g') && g != g'
    ensures LookupKey(f, g, k, n) != LookupKey(f, g', k', n')
  {
    if LookupKey(f, g, k, n) == LookupKey(f, g', k', n') {
      var x, y := k + [KEY_SEPARATOR] + f.norm(n), k' + [KEY_SEPARATOR] + f.norm(n');
      assert g + [KEY_SEPARATOR] + x == LookupKey(f, g, k, n);
      assert g' + [KEY_SEPARATOR] + y == LookupKey(f, g', k', n');
      SplitAtSeparator(g, g', x, y);
    }
  }

  /** Nothing but the derived columns differs. */
  ghost predicate SameIdentities(ents: Entities, ents': Entities) {
    && ents.Keys == ents'.Keys
    && forall u <- ents ::
         && ents'[u].name == ents[u].name
         && ents'[u].group == ents[u].group
         && ents'[u].Kind() == ents[u].Kind()
         && ents'[u].merged == ents[u].merged
         && ents'[u].mergedInto == ents[u].mergedInto
         && ents'[u].createdAt == ents[u].createdAt
  }

  lemma HealedWellFormed(g: Graph, g1: Graph)
    requires WellFormed(g) && g1 == g.(entities := g1.entities) && SameIdentities(g.entities, g1.entities)
    ensures WellFormed(g1)
  {
    forall q
      ensures DirectSynced(g1, q)
    {
      assert DirectSynced(g, q);
    }
  }

  /** The lookup answers exactly when some live row matches, and only ever with such a row. */
  lemma LookupAgreesOnExistence(f: Folding, ents: Entities, group: GroupId, kind: Kind, name: Name)
    ensures LookupResult(f, ents, group, kind, name).Some?
            <==> exists u :: u in ents && Matches(f, ents[u], group, kind, name)
    ensures var r := LookupResult(f, ents, group, kind, name);
            r.Some? ==> r.value in ents && Matches(f, ents[r.value], group, kind, name)
  {
    if u :| u in ents && Matches(f, ents[u], group, kind, name) {
      assert u in MatchingRows(f, ents, group, kind, name);
    }
  }

  /** With the group's index in order it holds exactly the rows the scan would find. */
  lemma IndexIsTheScan(f: Folding, ents: Entities, group: GroupId, kind: Kind, name: Name)
    requires KeyedIn(f, ents, group) && SeparatorFree(kind)
    ensures KeyedRows(ents, LookupKey(f, group, kind, name)) == MatchingRows(f, ents, group, kind, name)
  {
    forall u <- ents
      ensures ents[u].lookupKey == Some(LookupKey(f, group, kind, name))
              <==> Matches(f, ents[u], group, kind, name)
    {
      if ents[u].group == group {
        SameGroupKeys(f, group, ents[u].Kind(), ents[u].name, kind, name);
      } else {
        assert KeyElsewhere(f, ents[u], group);
      }
    }
  }

  lemma SameGroupKeys(f: Folding, g: GroupId, k: Kind, n: Name, k': Kind, n': Name)
    requires SeparatorFree(k) && SeparatorFree(k')
    ensures LookupKey(f, g, k, n) == LookupKey(f, g, k', n') <==> k == k' && f.norm(n) == f.norm(n')
  {
    if LookupKey(f, g, k, n) == LookupKey(f, g, k', n') {
      var x, y := k + [KEY_SEPARATOR] + f.norm(n), k' + [KEY_SEPARATOR] + f.norm(n');
      assert g + [KEY_SEPARATOR] + x == LookupKey(f, g, k, n);
      assert g + [KEY_SEPARATOR] + y == LookupKey(f, g, k', n');
      SameLengthPrefix(g + [KEY_SEPARATOR], x, y);
      SplitAtSeparator(k, k', f.norm(n), f.norm(n'));
    }
  }

  /** With the group's index in order the lookup is the scan's own winner and writes nothing,
    * whatever kind is asked for. */
  lemma LookupIsScanWhenKeyed(f: Folding, ents: Entities, group: GroupId, kind: Kind, name: Name)
    requires KeyedIn(f, ents, group)
    ensures VerifiedProbe(f, ents, group, kind, name) == Scan(f, ents, group, kind, name)
    ensures LookupResult(f, ents, group, kind, name) == Scan(f, ents, group, kind, name)
    ensures LookupEffect(f, ents, group, kind, name) == ents
  {
    if SeparatorFree(kind) {
      IndexIsTheScan(f, ents, group, kind, name);
    } else {
      assert MatchingRows(f, ents, group, kind, name) == {};
    }
  }

  /** Healing touches no identity, makes its row fresh, and leaves every other row alone, so a
    * fresh key never becomes stale. */
  lemma HealKeepsFreshKeys(f: Folding, ents: Entities, u: Uuid)
    requires u in ents
    ensures SameIdentities(ents, Heal(f, ents, u))
    ensures FreshKey(f, Heal(f, ents, u)[u])
    ensures forall v <- ents :: v != u ==> Heal(f, ents, u)[v] == ents[v]
    ensures forall v <- ents :: FreshKey(f, ents[v]) ==> FreshKey(f, Heal(f, ents, u)[v])
  {
  }

  /** A lookup that had to scan heals its answer. Looked up again, the row is found by the index alone
    * if and only if it comes first among the rows that carry the key, stale ones included. */
  lemma HealedRowIsIndexed(f: Folding, ents: Entities, group: GroupId, kind: Kind, name: Name)
    requires VerifiedProbe(f, ents, group, kind, name).None? && Scan(f, ents, group, kind, name).Some?
    ensures var u, ents' := Scan(f, ents, group, kind, name).value, LookupEffect(f, ents, group, kind, name);
            VerifiedProbe(f, ents', group, kind, name) == Some(u)
            <==> forall v <- KeyedRows(ents, LookupKey(f, group, kind, name)) :: Before(ents, u, v)
  {
    var u, key := Scan(f, ents, group, kind, name).value, LookupKey(f, group, kind, name);
    var ents' := Heal(f, ents, u);
    assert KeyedRows(ents', key) == KeyedRows(ents, key) + {u};
    var first := First(ents', KeyedRows(ents', key)).value;
    if forall v <- KeyedRows(ents, key) :: Before(ents, u, v) {
      assert Before(ents', u, first) && Before(ents', first, u);
    } else {
      var v :| v in KeyedRows(ents, key) && !Before(ents, u, v);
      assert v in KeyedRows(ents', key) && !Before(ents', u, v);
    }
  }

  // Resolution across kinds.

  function KindsOf(ents: Entities): set<Kind> {
    (set u | u in ents :: ents[u].Kind()) + {DEFAULT_KIND}
  }

  function ProbedKinds(f: Folding, ents: Entities, group: GroupId, name: Name): set<Kind> {
    set k | k in KindsOf(ents) && VerifiedProbe(f, ents, group, k, name).Some?
  }

  function ScannedKinds(f: Folding, ents: Entities, group: GroupId, name: Name): set<Kind> {
    set k | k in KindsOf(ents) && Scan(f, ents, group, k, name).Some?
  }

  /** One winner per kind that the index knows; when it knows none, one per kind the scan finds. */
  function WinningKinds(f: Folding, ents: Entities, group: GroupId, name: Name): set<Kind> {
    var probed := ProbedKinds(f, ents, group, name);
    if probed != {} then probed else ScannedKinds(f, ents, group, name)
  }

  /** Every row of the group with that name, healed: what the any-kind scan leaves behind. */
  function HealAll(f: Folding, ents: Entities, group: GroupId, name: Name): Entities {
    map u | u in ents ::
      var e := ents[u];
      if e.group == group && f.norm(e.name) == f.norm(name) then
        e.(storedKind := Some(e.Kind()), lookupKey := Some(LookupKey(f, e.group, e.Kind(), e.name)))
      else e
  }

  function AnyKindEffect(f: Folding, ents: Entities, group: GroupId, name: Name): Entities {
    if ProbedKinds(f, ents, group, name) == {} then HealAll(f, ents, group, name) else ents
  }

  /** Across kinds: a kind wins only if a live row of that kind matches, and no kind wins only if
    * none matches at all. With the group's index in order every matching kind wins. */
  lemma AnyKindAgreesOnExistence(f: Folding, ents: Entities, group: GroupId, name: Name)
    ensures forall k <- WinningKinds(f, ents, group, name) ::
              exists u :: u in ents && Matches(f, ents[u], group, k, name)
    ensures WinningKinds(f, ents, group, name) != {}
            <==> exists u :: u in ents && ents[u].group == group && f.norm(ents[u].name) == f.norm(name)
  {
    forall k <- WinningKinds(f, ents, group, name)
      ensures exists u :: u in ents && Matches(f, ents[u], group, k, name)
    {
      LookupAgreesOnExistence(f, ents, group, k, name);
    }
    if u :| u in ents && ents[u].group == group && f.norm(ents[u].name) == f.norm(name) {
      var k := ents[u].Kind();
      assert Matches(f, ents[u], group, k, name);
      assert u in MatchingRows(f, ents, group, k, name);
      assert k in KindsOf(ents);
      assert k in ScannedKinds(f, ents, group, name);
    }
    if k :| k in WinningKinds(f, ents, group, name) {
      var u :| u in ents && Matches(f, ents[u], group, k, name);
    }
  }

  lemma AnyKindIsScanWhenKeyed(f: Folding, ents: Entities, group: GroupId, name: Name)
    requires KeyedIn(f, ents, group)
    ensures WinningKinds(f, ents, group, name)
            == ScannedKinds(f, ents, group, name)
    ensures AnyKindEffect(f, ents, group, name) == ents
  {
    forall k <- KindsOf(ents)
      ensures VerifiedProbe(f, ents, group, k, name) == Scan(f, ents, group, k, name)
    {
      LookupIsScanWhenKeyed(f, ents, group, k, name);
    }
    assert ProbedKinds(f, ents, group, name) == ScannedKinds(f, ents, group, name);
    assert HealAll(f, ents, group, name) == ents;
  }
}
