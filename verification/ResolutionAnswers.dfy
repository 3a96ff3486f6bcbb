/** What resolution answers, said of the stored rows alone: which row a lookup finds and what it leaves
  * behind, when an endpoint is bound, ambiguous or unbound, and what an assert call is told. Nothing here
  * goes through the functions that compute the answers. */
module ResolutionAnswers {
  import opened Common
  import opened PropertyGraph
  import opened NameLookup
  import opened Forwarding
  import opened PointerResolution
  import opened Assertions

  /** A row without a kind is an "Entity". */
  ghost predicate OfKind(e: Entity, kind: Kind) {
    e.storedKind == Some(kind) || (e.storedKind.None? && kind == "Entity")
  }

  ghost predicate Carries(f: Folding, e: Entity, group: GroupId, kind: Kind, name: Name) {
    e.group == group && OfKind(e, kind) && f.norm(e.name) == f.norm(name)
  }

  ghost predicate CarriesKey(f: Folding, e: Entity, group: GroupId, kind: Kind, name: Name) {
    e.lookupKey == Some(group + "\U{1F}" + kind + "\U{1F}" + f.norm(name))
  }

  /** Older, or as old with the smaller uuid, or the same row. */
  ghost predicate NoYounger(ents: Entities, u: Uuid, v: Uuid)
    requires u in ents && v in ents
  {
    ents[u].createdAt < ents[v].createdAt || (ents[u].createdAt == ents[v].createdAt && u <= v)
  }

  /** The index gives `u`: the oldest row that carries the key, if that row also carries the name. */
  ghost predicate Indexed(f: Folding, ents: Entities, group: GroupId, kind: Kind, name: Name, u: Uuid) {
    && u in ents && CarriesKey(f, ents[u], group, kind, name)
    && (forall v <- ents :: CarriesKey(f, ents[v], group, kind, name) ==> NoYounger(ents, u, v))
    && Carries(f, ents[u], group, kind, name)
  }

  /** The scan gives `u`: the oldest row that carries the name. */
  ghost predicate Scanned(f: Folding, ents: Entities, group: GroupId, kind: Kind, name: Name, u: Uuid) {
    && u in ents && Carries(f, ents[u], group, kind, name)
    && forall v <- ents :: Carries(f, ents[v], group, kind, name) ==> NoYounger(ents, u, v)
  }

  ghost predicate Known(f: Folding, ents: Entities, group: GroupId, kind: Kind, name: Name) {
    exists u :: Indexed(f, ents, group, kind, name, u)
  }

  ghost predicate Found(f: Folding, ents: Entities, group: GroupId, kind: Kind, name: Name, u: Uuid) {
    if Known(f, ents, group, kind, name) then Indexed(f, ents, group, kind, name, u)
    else Scanned(f, ents, group, kind, name, u)
  }

  // The lookup of one kind.

  lemma KeyRead(f: Folding, e: Entity, group: GroupId, kind: Kind, name: Name)
    ensures CarriesKey(f, e, group, kind, name) <==> e.lookupKey == Some(LookupKey(f, group, kind, name))
    ensures Carries(f, e, group, kind, name) <==> Matches(f, e, group, kind, name)
  {
    assert "\U{1F}" == [KEY_SEPARATOR];
  }

  lemma FirstIs(ents: Entities, rows: set<Uuid>, u: Uuid)
    requires rows <= ents.Keys
    ensures First(ents, rows) == Some(u) <==> u in rows && forall v <- rows :: NoYounger(ents, u, v)
  {
    if First(ents, rows) == Some(u) {
      assert forall v <- rows :: Before(ents, u, v);
    }
    if u in rows && forall v <- rows :: NoYounger(ents, u, v) {
      var w := First(ents, rows).value;
      assert NoYounger(ents, u, w) && Before(ents, w, u);
    }
  }

  lemma ProbeIs(f: Folding, ents: Entities, group: GroupId, kind: Kind, name: Name, u: Uuid)
    ensures VerifiedProbe(f, ents, group, kind, name) == Some(u) <==> Indexed(f, ents, group, kind, name, u)
  {
    var rows := KeyedRows(ents, LookupKey(f, group, kind, name));
    forall v <- ents
      ensures v in rows <==> CarriesKey(f, ents[v], group, kind, name)
      ensures Carries(f, ents[v], group, kind, name) <==> Matches(f, ents[v], group, kind, name)
    {
      KeyRead(f, ents[v], group, kind, name);
    }
    FirstIs(ents, rows, u);
  }

  lemma ScanIs(f: Folding, ents: Entities, group: GroupId, kind: Kind, name: Name, u: Uuid)
    ensures Scan(f, ents, group, kind, name) == Some(u) <==> Scanned(f, ents, group, kind, name, u)
  {
    var rows := MatchingRows(f, ents, group, kind, name);
    forall v <- ents
      ensures v in rows <==> Carries(f, ents[v], group, kind, name)
    {
      KeyRead(f, ents[v], group, kind, name);
    }
    FirstIs(ents, rows, u);
  }

  lemma KnownIs(f: Folding, ents: Entities, group: GroupId, kind: Kind, name: Name)
    ensures VerifiedProbe(f, ents, group, kind, name).Some? <==> Known(f, ents, group, kind, name)
  {
    var r := VerifiedProbe(f, ents, group, kind, name);
    if r.Some? {
      ProbeIs(f, ents, group, kind, name, r.value);
    }
    if u :| Indexed(f, ents, group, kind, name, u) {
      ProbeIs(f, ents, group, kind, name, u);
    }
  }

  /** The lookup of one kind finds the row of the index, and that of the scan when the index gives none. */
  lemma LookupFinds(f: Folding, ents: Entities, group: GroupId, kind: Kind, name: Name, u: Uuid)
    ensures LookupResult(f, ents, group, kind, name) == Some(u) <==> Found(f, ents, group, kind, name, u)
  {
    KnownIs(f, ents, group, kind, name);
    ProbeIs(f, ents, group, kind, name, u);
    ScanIs(f, ents, group, kind, name, u);
  }

  lemma SomethingIsFound(f: Folding, ents: Entities, group: GroupId, kind: Kind, name: Name)
    ensures (exists u :: Found(f, ents, group, kind, name, u))
            <==> exists u :: u in ents && Carries(f, ents[u], group, kind, name)
    ensures LookupResult(f, ents, group, kind, name).None? ==> forall u :: !Found(f, ents, group, kind, name, u)
  {
    var r := LookupResult(f, ents, group, kind, name);
    LookupAgreesOnExistence(f, ents, group, kind, name);
    if r.Some? {
      LookupFinds(f, ents, group, kind, name, r.value);
      KeyRead(f, ents[r.value], group, kind, name);
    } else {
      forall u
        ensures !Found(f, ents, group, kind, name, u)
        ensures u in ents ==> !Carries(f, ents[u], group, kind, name)
      {
        LookupFinds(f, ents, group, kind, name, u);
        if u in ents {
          KeyRead(f, ents[u], group, kind, name);
        }
      }
    }
  }

  // The lookup across kinds.

  /** The kind wins: the index gives a row of it, or gives none of any kind while some row carries the
    * name under this one. */
  ghost predicate Wins(f: Folding, ents: Entities, group: GroupId, name: Name, kind: Kind) {
    if exists k :: Known(f, ents, group, k, name) then Known(f, ents, group, kind, name)
    else exists u :: u in ents && Carries(f, ents[u], group, kind, name)
  }

  lemma ProbedIs(f: Folding, ents: Entities, group: GroupId, name: Name, kind: Kind)
    ensures kind in ProbedKinds(f, ents, group, name) <==> Known(f, ents, group, kind, name)
  {
    ProbedKindIsAKind(f, ents, group, name, kind);
    KnownIs(f, ents, group, kind, name);
  }

  lemma NoneProbedIs(f: Folding, ents: Entities, group: GroupId, name: Name)
    ensures ProbedKinds(f, ents, group, name) == {} <==> forall k :: !Known(f, ents, group, k, name)
  {
    forall k: Kind
      ensures k in ProbedKinds(f, ents, group, name) <==> Known(f, ents, group, k, name)
    {
      ProbedIs(f, ents, group, name, k);
    }
  }

  lemma KindsThatWin(f: Folding, ents: Entities, group: GroupId, name: Name, kind: Kind)
    ensures kind in WinningKinds(f, ents, group, name) <==> Wins(f, ents, group, name, kind)
  {
    NoneProbedIs(f, ents, group, name);
    ProbedIs(f, ents, group, name, kind);
    ScannedKindIsAKind(f, ents, group, name, kind);
    var r := Scan(f, ents, group, kind, name);
    if r.Some? {
      ScanIs(f, ents, group, kind, name, r.value);
    }
    if u :| u in ents && Carries(f, ents[u], group, kind, name) {
      KeyRead(f, ents[u], group, kind, name);
      assert u in MatchingRows(f, ents, group, kind, name);
    }
  }

  // What a lookup writes.

  /** The row as its own columns say it should be indexed. */
  ghost predicate Reindexed(f: Folding, e: Entity, e': Entity) {
    && e'.storedKind == (if e.storedKind.None? then Some("Entity") else e.storedKind)
    && CarriesKey(f, e', e.group, e'.storedKind.value, e.name)
    && e' == e.(storedKind := e'.storedKind, lookupKey := e'.lookupKey)
  }

  /** The rows a lookup heals: the scanned one when the index gives none, and across kinds every row of
    * the group that carries the name when the index gives none of any kind. */
  ghost predicate Healed(f: Folding, ents: Entities, group: GroupId, name: Name, kind: Option<Kind>, u: Uuid) {
    match kind
    case Some(k) => !Known(f, ents, group, k, name) && Scanned(f, ents, group, k, name, u)
    case None =>
      && (forall k :: !Known(f, ents, group, k, name))
      && u in ents && ents[u].group == group && f.norm(ents[u].name) == f.norm(name)
  }

  lemma HealReindexes(f: Folding, ents: Entities, u: Uuid)
    requires u in ents
    ensures Reindexed(f, ents[u], Heal(f, ents, u)[u])
  {
    var e' := Heal(f, ents, u)[u];
    KeyRead(f, e', ents[u].group, e'.storedKind.value, ents[u].name);
  }

  /** A lookup rewrites the derived columns of exactly the rows it heals, and nothing else. */
  lemma LookupHealsExactly(f: Folding, ents: Entities, group: GroupId, name: Name, kind: Option<Kind>, u: Uuid)
    requires u in ents
    ensures var ents' := LookupWrites(f, ents, group, name, kind);
            && ents'.Keys == ents.Keys
            && (Healed(f, ents, group, name, kind, u) ==> Reindexed(f, ents[u], ents'[u]))
            && (!Healed(f, ents, group, name, kind, u) ==> ents'[u] == ents[u])
  {
    HealReindexes(f, ents, u);
    match kind
    case Some(k) =>
      KnownIs(f, ents, group, k, name);
      ScanIs(f, ents, group, k, name, u);
    case None =>
      NoneProbedIs(f, ents, group, name);
      assert Heal(f, ents, u)[u] == HealAll(f, ents, ents[u].group, ents[u].name)[u];
  }

  // One endpoint.

  ghost predicate LiveNamesake(f: Folding, ents: Entities, group: GroupId, kind: Kind, name: Name, u: Uuid) {
    && u in ents && !ents[u].merged && ents[u].group == group && OfKind(ents[u], kind)
    && f.lower(ents[u].name) == f.norm(name)
  }

  /** Two live rows share the name under the kind. */
  ghost predicate Crowded(f: Folding, ents: Entities, group: GroupId, kind: Kind, name: Name) {
    exists u, v :: u != v && LiveNamesake(f, ents, group, kind, name, u) && LiveNamesake(f, ents, group, kind, name, v)
  }

  lemma AtMostOne(rows: set<Uuid>)
    ensures |rows| > 1 <==> exists u, v :: u in rows && v in rows && u != v
  {
    if u :| u in rows {
      var rest := rows - {u};
      assert |rest| == |rows| - 1;
      if v :| v in rest {
        assert |rest - {v}| == |rest| - 1;
      } else {
        assert rest == {};
      }
    }
  }

  lemma CrowdedIs(f: Folding, ents: Entities, group: GroupId, kind: Kind, name: Name)
    ensures |ActiveNamesakes(f, ents, group, kind, name)| > 1 <==> Crowded(f, ents, group, kind, name)
  {
    var rows := ActiveNamesakes(f, ents, group, kind, name);
    assert forall u :: u in rows <==> LiveNamesake(f, ents, group, kind, name, u);
    AtMostOne(rows);
  }

  ghost predicate SeveralWin(f: Folding, ents: Entities, group: GroupId, name: Name) {
    exists k, l :: k != l && Wins(f, ents, group, name, k) && Wins(f, ents, group, name, l)
  }

  /** The kind to look under: the one asked for, or the only one that wins. */
  ghost predicate KindToUse(f: Folding, ents: Entities, group: GroupId, name: Name, asked: Option<Kind>, kind: Kind) {
    match asked
    case Some(k) => k == kind
    case None => Wins(f, ents, group, name, kind) && !SeveralWin(f, ents, group, name)
  }

  /** Row `u` of that kind is what the endpoint's name leads to. */
  ghost predicate LeadsTo(
    f: Folding, ents: Entities, group: GroupId, name: Name, asked: Option<Kind>, kind: Kind, u: Uuid)
  {
    KindToUse(f, ents, group, name, asked, kind) && Found(f, ents, group, kind, name, u)
  }

  /** Live row `c` stands for `u`: itself, or where the chain of its tombstone ends. */
  ghost predicate StandsFor(ents: Entities, group: GroupId, u: Uuid, c: Uuid) {
    u in ents && if ents[u].merged then Reaches(ents, group, u, c) else c == u
  }

  ghost predicate NowAmbiguous(f: Folding, ents: Entities, group: GroupId, name: Name, asked: Option<Kind>) {
    || (asked.None? && SeveralWin(f, ents, group, name))
    || exists k, u :: LeadsTo(f, ents, group, name, asked, k, u) && Crowded(f, ents, group, k, name)
  }

  ghost predicate NowBound(f: Folding, ents: Entities, group: GroupId, name: Name, asked: Option<Kind>, c: Uuid) {
    exists k, u ::
      LeadsTo(f, ents, group, name, asked, k, u) && !Crowded(f, ents, group, k, name) && StandsFor(ents, group, u, c)
  }

  lemma KindsAre(f: Folding, ents: Entities, group: GroupId, name: Name)
    ensures var kinds := WinningKinds(f, ents, group, name);
            && (|kinds| > 1 <==> SeveralWin(f, ents, group, name))
            && (|kinds| == 1 ==> forall k :: KindToUse(f, ents, group, name, None, k) <==> k == TheKind(kinds))
            && (|kinds| != 1 ==> forall k :: !KindToUse(f, ents, group, name, None, k))
  {
    var kinds := WinningKinds(f, ents, group, name);
    forall k: Kind
      ensures k in kinds <==> Wins(f, ents, group, name, k)
    {
      KindsThatWin(f, ents, group, name, k);
    }
    TwoKinds(kinds);
    if |kinds| == 1 {
      SingletonElement(kinds);
    } else if |kinds| == 0 {
      assert kinds == {};
    }
  }

  lemma TwoKinds(kinds: set<Kind>)
    ensures |kinds| > 1 <==> exists k, l :: k in kinds && l in kinds && k != l
  {
    if k :| k in kinds {
      var rest := kinds - {k};
      assert |rest| == |kinds| - 1;
      if l :| l in rest {
        assert |rest - {l}| == |rest| - 1;
      } else {
        assert rest == {};
      }
    }
  }

  /** The winner of the name lookup is the row that the name leads to. */
  lemma WinnerIs(f: Folding, ents: Entities, group: GroupId, name: Name, asked: Option<Kind>)
    ensures var w := NamedWinner(f, ents, group, name, asked);
            && (w.ManyKinds? <==> asked.None? && SeveralWin(f, ents, group, name))
            && forall k, u: Uuid :: LeadsTo(f, ents, group, name, asked, k, u)
                              <==> w == Winner(u) && KindToUse(f, ents, group, name, asked, k)
  {
    KindsAre(f, ents, group, name);
    forall k, u: Uuid
      ensures LookupResult(f, ents, group, k, name) == Some(u) <==> Found(f, ents, group, k, name, u)
    {
      LookupFinds(f, ents, group, k, name, u);
    }
  }

  lemma WinnerHasTheKind(f: Folding, ents: Entities, group: GroupId, name: Name, asked: Option<Kind>, k: Kind, u: Uuid)
    requires LeadsTo(f, ents, group, name, asked, k, u)
    ensures u in ents && ents[u].Kind() == k
  {
  }

  lemma ForwardedWinnerIs(f: Folding, ents: Entities, group: GroupId, name: Name, u: Uuid, c: Uuid)
    requires u in ents
    ensures var r, crowded := ForwardWinner(f, ents, group, name, u), Crowded(f, ents, group, ents[u].Kind(), name);
            && (r.state.Ambiguous? <==> crowded)
            && (r == Resolution(Bound, Some(c)) <==> !crowded && StandsFor(ents, group, u, c))
  {
    CrowdedIs(f, ents, group, ents[u].Kind(), name);
    WalkIsReach(ents, group, u);
  }

  /** The answer for an endpoint, exactly. It is ambiguous if several kinds win, or if live rows other than
    * one share the name under the kind of the row that the name leads to. It is bound to the live row that
    * stands for that row, when the name is not shared. Otherwise it is unbound. */
  lemma EndpointAnswer(f: Folding, ents: Entities, group: GroupId, name: Name, asked: Option<Kind>)
    ensures var r := ResolveEndpoint(f, ents, group, name, asked);
            && (r.state.Ambiguous? <==> NowAmbiguous(f, ents, group, name, asked))
            && (r.state.Bound? <==> r.uuid.Some?)
            && forall c: Uuid :: r == Resolution(Bound, Some(c)) <==> NowBound(f, ents, group, name, asked, c)
  {
    WinnerIs(f, ents, group, name, asked);
    var w := NamedWinner(f, ents, group, name, asked);
    if w.Winner? {
      var k := if asked.Some? then asked.value else TheKind(WinningKinds(f, ents, group, name));
      KindsAre(f, ents, group, name);
      assert LeadsTo(f, ents, group, name, asked, k, w.uuid);
      forall l, u | LeadsTo(f, ents, group, name, asked, l, u)
        ensures u == w.uuid && l == k == ents[u].Kind()
      {
        WinnerHasTheKind(f, ents, group, name, asked, l, u);
      }
      forall c: Uuid
        ensures var r, crowded := ForwardWinner(f, ents, group, name, w.uuid), Crowded(f, ents, group, k, name);
                && (r.state.Ambiguous? <==> crowded)
                && (r == Resolution(Bound, Some(c)) <==> !crowded && StandsFor(ents, group, w.uuid, c))
      {
        ForwardedWinnerIs(f, ents, group, name, w.uuid, c);
      }
    }
  }

  /** For a pointer that gives a kind: ambiguous exactly when some row carries the name under it and two
    * live rows share it; bound to `c` exactly when they do not and `c` stands for the row found. */
  lemma KindedEndpointAnswer(f: Folding, ents: Entities, group: GroupId, name: Name, kind: Kind, c: Uuid)
    ensures var r := ResolveEndpoint(f, ents, group, name, Some(kind));
            && (r.state.Ambiguous?
                <==> && (exists u :: u in ents && Carries(f, ents[u], group, kind, name))
                     && Crowded(f, ents, group, kind, name))
            && (r == Resolution(Bound, Some(c))
                <==> && !Crowded(f, ents, group, kind, name)
                     && exists u :: Found(f, ents, group, kind, name, u) && StandsFor(ents, group, u, c))
  {
    EndpointAnswer(f, ents, group, name, Some(kind));
    SomethingIsFound(f, ents, group, kind, name);
    forall k, u
      ensures LeadsTo(f, ents, group, name, Some(kind), k, u) <==> k == kind && Found(f, ents, group, kind, name, u)
    {
    }
    if u :| Found(f, ents, group, kind, name, u) {
      assert LeadsTo(f, ents, group, name, Some(kind), kind, u);
    }
  }

  // An assert call.

  /** Row `u` is found under a kind that the call looks at. */
  ghost predicate Sought(
    f: Folding, ents: Entities, group: GroupId, name: Name, scope: KindScope, kind: Kind, u: Uuid)
  {
    && Found(f, ents, group, kind, name, u)
    && match scope
       case Exact(k) => k == kind
       case AnyKind => Wins(f, ents, group, name, kind)
  }

  lemma WinnersAre(f: Folding, ents: Entities, group: GroupId, name: Name, scope: KindScope, kind: Kind, u: Uuid)
    ensures var w := Winners(f, ents, group, name, scope);
            kind in w && w[kind] == u <==> Sought(f, ents, group, name, scope, kind, u)
  {
    KindsThatWin(f, ents, group, name, kind);
    LookupFinds(f, ents, group, kind, name, u);
  }

  lemma ForwardedIs(ents: Entities, group: GroupId, u: Uuid)
    requires u in ents
    ensures forall c: Uuid :: Forwarded(ents, group, u) == Some(c) <==> StandsFor(ents, group, u, c)
    ensures Forwarded(ents, group, u).None? <==> forall c :: !StandsFor(ents, group, u, c)
  {
    WalkIsReach(ents, group, u);
    var r := Forwarded(ents, group, u);
    if r.Some? {
      assert StandsFor(ents, group, u, r.value);
    }
  }

  lemma AllForwardedAre(ents: Entities, group: GroupId, w: map<Kind, Uuid>)
    requires forall k <- w :: w[k] in ents
    ensures forall k, c: Uuid :: k in w ==>
              (Forwarded(ents, group, w[k]) == Some(c) <==> StandsFor(ents, group, w[k], c))
    ensures forall k <- w :: Forwarded(ents, group, w[k]).None? <==> forall c :: !StandsFor(ents, group, w[k], c)
  {
    forall k <- w
      ensures forall c: Uuid :: Forwarded(ents, group, w[k]) == Some(c) <==> StandsFor(ents, group, w[k], c)
      ensures Forwarded(ents, group, w[k]).None? <==> forall c :: !StandsFor(ents, group, w[k], c)
    {
      ForwardedIs(ents, group, w[k]);
    }
  }

  ghost predicate Alone(
    f: Folding, ents: Entities, group: GroupId, name: Name, scope: KindScope, kind: Kind, u: Uuid)
  {
    && Sought(f, ents, group, name, scope, kind, u)
    && forall l, v :: Sought(f, ents, group, name, scope, l, v) ==> l == kind
  }

  lemma SizeOfWinners(w: map<Kind, Uuid>)
    ensures |w| > 1 ==> exists k, l :: k in w && l in w && k != l
    ensures |w| == |w.Keys|
  {
    TwoKinds(w.Keys);
  }

  /** There is one winning row, and `c` stands for it. */
  ghost predicate OnlyWinner(ents: Entities, group: GroupId, w: map<Kind, Uuid>, c: Uuid) {
    exists k :: k in w && w.Keys == {k} && StandsFor(ents, group, w[k], c)
  }

  lemma ExistingIs(ents: Entities, group: GroupId, w: map<Kind, Uuid>, r: Resolved, c: Uuid)
    requires (forall k <- w :: w[k] in ents) && Answers(ents, group, w, r)
    ensures r == Existing(c) <==> OnlyWinner(ents, group, w, c)
  {
    AllForwardedAre(ents, group, w);
    SizeOfWinners(w);
    if k :| k in w && w.Keys == {k} && StandsFor(ents, group, w[k], c) {
      assert Forwarded(ents, group, w[k]) == Some(c);
    }
  }

  /** The other answers in terms of the winning rows. */
  lemma AnswerOf(ents: Entities, group: GroupId, w: map<Kind, Uuid>, r: Resolved)
    requires (forall k <- w :: w[k] in ents) && Answers(ents, group, w, r)
    ensures r.NotFound? <==> w == map[]
    ensures r.DeadEnd? <==> exists k :: k in w && forall c :: !StandsFor(ents, group, w[k], c)
    ensures r.AmbiguousEntity? ==>
              && r.candidates.Keys == w.Keys && (exists k, l :: k in w && l in w && k != l)
              && forall k <- w :: StandsFor(ents, group, w[k], r.candidates[k])
  {
    AllForwardedAre(ents, group, w);
    SizeOfWinners(w);
  }

  lemma OneWinner(f: Folding, ents: Entities, group: GroupId, name: Name, scope: KindScope, c: Uuid)
    ensures var w := Winners(f, ents, group, name, scope);
            OnlyWinner(ents, group, w, c)
            <==> exists k, u :: Alone(f, ents, group, name, scope, k, u) && StandsFor(ents, group, u, c)
  {
    var w := Winners(f, ents, group, name, scope);
    forall k, u: Uuid
      ensures k in w && w[k] == u <==> Sought(f, ents, group, name, scope, k, u)
    {
      WinnersAre(f, ents, group, name, scope, k, u);
    }
    if k :| k in w && w.Keys == {k} && StandsFor(ents, group, w[k], c) {
      assert Alone(f, ents, group, name, scope, k, w[k]);
    }
    if k, u :| Alone(f, ents, group, name, scope, k, u) && StandsFor(ents, group, u, c) {
      assert forall l <- w :: Sought(f, ents, group, name, scope, l, w[l]);
      assert w.Keys == {k};
    }
  }

  /** What an assert call is told, exactly: nothing is found; some row found has no live row standing for it;
    * the live row that stands for the only row found; or, for rows of several kinds, the live row that
    * stands for each. */
  lemma NameAnswer(f: Folding, ents: Entities, group: GroupId, name: Name, scope: KindScope, r: Resolved)
    requires Answers(ents, group, Winners(f, ents, group, name, scope), r)
    ensures r.NotFound? <==> forall k, u :: !Sought(f, ents, group, name, scope, k, u)
    ensures r.DeadEnd?
            <==> exists k, u :: && Sought(f, ents, group, name, scope, k, u)
                                && forall c :: !StandsFor(ents, group, u, c)
    ensures forall c: Uuid ::
              r == Existing(c)
              <==> exists k, u :: Alone(f, ents, group, name, scope, k, u) && StandsFor(ents, group, u, c)
    ensures r.AmbiguousEntity? ==>
              && (forall k :: k in r.candidates <==> exists u :: Sought(f, ents, group, name, scope, k, u))
              && (forall k, u :: Sought(f, ents, group, name, scope, k, u) ==>
                    k in r.candidates && StandsFor(ents, group, u, r.candidates[k]))
  {
    var w := Winners(f, ents, group, name, scope);
    AnswerOf(ents, group, w, r);
    forall c: Uuid
      ensures r == Existing(c)
              <==> exists k, u :: Alone(f, ents, group, name, scope, k, u) && StandsFor(ents, group, u, c)
    {
      ExistingIs(ents, group, w, r, c);
      OneWinner(f, ents, group, name, scope, c);
    }
    forall k, u: Uuid
      ensures k in w && w[k] == u <==> Sought(f, ents, group, name, scope, k, u)
    {
      WinnersAre(f, ents, group, name, scope, k, u);
    }
    assert forall k <- w :: Sought(f, ents, group, name, scope, k, w[k]);
  }
}
