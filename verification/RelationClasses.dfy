/** What canonicalization decides, in terms of the ontology and of the edge alone: the class of an edge, the
  * type it is left with, and what a pass writes and counts. Nothing here goes through the index or through
  * the functions that classify. */
module RelationClasses {
  import opened Common
  import opened PropertyGraph
  import opened UuidOrder
  import opened Canonicalize

  // The evidence of a text.

  ghost predicate Occurs(text: string, kw: string) {
    exists before, after :: text == before + kw + after
  }

  /** Type `i` can be extracted, and one of its keywords occurs in the text. */
  ghost predicate KeywordOf(o: Ontology, i: nat, text: string) {
    i < |o| && o[i].extract && exists kw :: kw in o[i].keywords && Occurs(text, kw)
  }

  ghost predicate FirstKeywordOf(o: Ontology, i: nat, text: string) {
    KeywordOf(o, i, text) && forall j: nat :: j < i ==> !KeywordOf(o, j, text)
  }

  /** Type `i` can be extracted, and is called so or has that alias. */
  ghost predicate Claims(o: Ontology, i: nat, text: string) {
    i < |o| && o[i].extract && (text == o[i].name || text in o[i].aliases)
  }

  ghost predicate LastToClaim(o: Ontology, i: nat, text: string) {
    Claims(o, i, text) && forall j: nat :: i < j ==> !Claims(o, j, text)
  }

  /** The text speaks for the type called `name`: it is the last to claim the normalized text, or, when none
    * does, the first with a keyword in it. */
  ghost predicate SpeaksFor(t: Texts, o: Ontology, text: string, name: TypeName) {
    var normalized := t.normalize(text);
    exists i: nat ::
      && i < |o| && o[i].name == name
      && (|| LastToClaim(o, i, normalized)
          || ((forall j: nat :: !Claims(o, j, normalized)) && FirstKeywordOf(o, i, t.lower(normalized))))
  }

  lemma OccursIs(text: string, kw: string)
    ensures Contains(text, kw) <==> Occurs(text, kw)
  {
    if i, j :| 0 <= i <= j <= |text| && text[i..j] == kw {
      assert text == text[..i] + kw + text[j..];
    }
    if before, after :| text == before + kw + after {
      assert text[|before|..|before| + |kw|] == kw;
    }
  }

  lemma {:induction false} HitInTwo(a: seq<Keyword>, b: seq<Keyword>, text: string)
    ensures KeywordHit(a + b, text) == if KeywordHit(a, text).Some? then KeywordHit(a, text) else KeywordHit(b, text)
  {
    if a == [] {
      assert a + b == b;
    } else {
      assert (a + b)[1..] == a[1..] + b;
      HitInTwo(a[1..], b, text);
    }
  }

  lemma {:induction false} HitOfOne(kws: seq<Keyword>, name: TypeName, text: string)
    requires forall k <- kws :: k.canonical == name
    ensures KeywordHit(kws, text) == if exists k :: k in kws && Occurs(text, k.text) then Some(name) else None
  {
    if kws != [] {
      assert kws == [kws[0]] + kws[1..];
      OccursIs(text, kws[0].text);
      HitOfOne(kws[1..], name, text);
    }
  }

  lemma HitOfType(rt: RelationTypeDef, text: string)
    ensures KeywordHit(KeywordsOf(rt), text)
            == if exists kw :: kw in rt.keywords && Occurs(text, kw) then Some(rt.name) else None
  {
    var kws := KeywordsOf(rt);
    HitOfOne(kws, rt.name, text);
    if kw :| kw in rt.keywords && Occurs(text, kw) {
      var i :| 0 <= i < |rt.keywords| && rt.keywords[i] == kw;
      assert kws[i] in kws && kws[i].text == kw;
    }
    if k :| k in kws && Occurs(text, k.text) {
      var i :| 0 <= i < |kws| && kws[i] == k;
      assert rt.keywords[i] == k.text;
    }
  }

  lemma KeywordOfFront(o: Ontology, rt: RelationTypeDef, i: nat, text: string)
    ensures i < |o| ==> (KeywordOf(o + [rt], i, text) <==> KeywordOf(o, i, text))
    ensures KeywordOf(o + [rt], |o|, text) <==> rt.extract && exists kw :: kw in rt.keywords && Occurs(text, kw)
    ensures i > |o| ==> !KeywordOf(o + [rt], i, text)
  {
  }

  lemma KeywordsGrow(o: Ontology, rt: RelationTypeDef, text: string)
    ensures forall i: nat ::
              KeywordOf(o + [rt], i, text)
              <==> KeywordOf(o, i, text)
                   || (i == |o| && rt.extract && exists kw :: kw in rt.keywords && Occurs(text, kw))
  {
    forall i: nat
      ensures KeywordOf(o + [rt], i, text)
              <==> KeywordOf(o, i, text)
                   || (i == |o| && rt.extract && exists kw :: kw in rt.keywords && Occurs(text, kw))
    {
      KeywordOfFront(o, rt, i, text);
    }
  }

  /** Of all keywords the first that occurs is one of the first type with one that does. */
  lemma {:induction false} FirstHitIs(o: Ontology, text: string)
    ensures var hit := KeywordHit(AllKeywords(o), text);
            && (hit.None? ==> forall i: nat :: !KeywordOf(o, i, text))
            && (hit.Some? ==> exists i: nat :: FirstKeywordOf(o, i, text) && o[i].name == hit.value)
  {
    if o != [] {
      var front, rt := o[..|o| - 1], o[|o| - 1];
      assert o == front + [rt];
      FirstHitIs(front, text);
      HitOfType(rt, text);
      HitInTwo(AllKeywords(front), if rt.extract then KeywordsOf(rt) else [], text);
      KeywordsGrow(front, rt, text);
      var before := KeywordHit(AllKeywords(front), text);
      if before.Some? {
        var i: nat :| FirstKeywordOf(front, i, text) && front[i].name == before.value;
        assert FirstKeywordOf(o, i, text) && o[i].name == before.value;
      } else if KeywordOf(o, |front|, text) {
        assert FirstKeywordOf(o, |front|, text) && o[|front|].name == rt.name;
      }
    }
  }

  lemma ClaimsAreNames(o: Ontology, text: string)
    ensures (exists i: nat :: Claims(o, i, text)) <==> exists name :: NamedBy(o, text, name)
    ensures forall i: nat :: LastToClaim(o, i, text) <==> LastNames(o, text, i)
  {
    if i: nat :| Claims(o, i, text) {
      assert NamedBy(o, text, o[i].name);
    }
    if name :| NamedBy(o, text, name) {
      var i :| 0 <= i < |o| && o[i].extract && o[i].name == name && (text == name || text in o[i].aliases);
      assert Claims(o, i, text);
    }
    forall i: nat
      ensures Claims(o, i, text) <==> i < |o| && Names(o[i], text)
    {
    }
  }

  lemma {:induction false} SomeLast(o: Ontology, text: string, i: nat) returns (last: nat)
    requires Claims(o, i, text)
    ensures LastToClaim(o, last, text)
    decreases |o| - i
  {
    if j: nat :| i < j && Claims(o, j, text) {
      last := SomeLast(o, text, j);
    } else {
      last := i;
    }
  }

  /** What the index answers for a text is what the text speaks for. */
  lemma MatchIs(t: Texts, o: Ontology, idx: LexicalIndex, text: string)
    requires IndexIs(o, idx)
    ensures forall name :: Match(t, idx, text) == Some(name) <==> SpeaksFor(t, o, text, name)
  {
    var normalized := t.normalize(text);
    var lower := t.lower(normalized);
    ClaimsAreNames(o, normalized);
    FirstHitIs(o, lower);
    if i: nat :| Claims(o, i, normalized) {
      var last := SomeLast(o, normalized, i);
      assert Match(t, idx, text) == Some(o[last].name);
      assert SpeaksFor(t, o, text, o[last].name);
      forall name | SpeaksFor(t, o, text, name)
        ensures name == o[last].name
      {
      }
    } else {
      assert normalized !in idx.exact;
      if i: nat :| KeywordOf(o, i, lower) {
        var first: nat :| FirstKeywordOf(o, first, lower) && Match(t, idx, text) == Some(o[first].name);
        assert SpeaksFor(t, o, text, o[first].name);
        forall name | SpeaksFor(t, o, text, name)
          ensures name == o[first].name
        {
        }
      }
    }
  }

  // One edge.

  ghost predicate AssertOnly(o: Ontology, name: TypeName) {
    exists i :: 0 <= i < |o| && !o[i].extract && o[i].name == name
  }

  ghost predicate IsNoise(t: Texts, name: string, rt: Option<TypeName>) {
    t.isNoise(name) || (rt.Some? && t.isNoise(rt.value))
  }

  ghost predicate Silent(t: Texts, o: Ontology, text: string) {
    forall name :: !SpeaksFor(t, o, text, name)
  }

  /** What the edge's own words and type say it is: an assert-only type it already has; else what its name
    * speaks for; else a declared type it already has; else what that type speaks for. */
  ghost predicate WordsSay(t: Texts, o: Ontology, name: string, rt: Option<TypeName>, c: TypeName) {
    if rt.Some? && AssertOnly(o, rt.value) then c == rt.value
    else
      || SpeaksFor(t, o, name, c)
      || (&& Silent(t, o, name) && rt.Some?
          && if Declared(o, rt.value) then c == rt.value else SpeaksFor(t, o, rt.value, c))
  }

  lemma WordsAre(t: Texts, o: Ontology, idx: LexicalIndex, name: string, rt: Option<TypeName>, c: TypeName)
    requires IndexIs(o, idx)
    ensures WordsSay(t, o, name, rt, c)
            <==> if rt.Some? && rt.value in idx.assertOnlyNames then c == rt.value
                 else
                   || Match(t, idx, name) == Some(c)
                   || (&& Match(t, idx, name).None? && rt.Some?
                       && if rt.value in idx.canonicalNames then c == rt.value
                          else Match(t, idx, rt.value) == Some(c))
  {
    MatchIs(t, o, idx, name);
    SilentIs(t, o, idx, name);
    if rt.Some? {
      MatchIs(t, o, idx, rt.value);
    }
  }

  lemma SilentIs(t: Texts, o: Ontology, idx: LexicalIndex, text: string)
    requires IndexIs(o, idx)
    ensures Silent(t, o, text) <==> Match(t, idx, text).None?
  {
    MatchIs(t, o, idx, text);
    if Match(t, idx, text).Some? {
      assert SpeaksFor(t, o, text, Match(t, idx, text).value);
    }
  }

  /** The class of an edge by its words, exactly. */
  lemma LexicalAnswer(t: Texts, o: Ontology, idx: LexicalIndex, name: string, rt: Option<TypeName>)
    requires IndexIs(o, idx)
    ensures var r := Classify(t, idx, name, rt);
            && (r.Noise? <==> IsNoise(t, name, rt))
            && (r.Residual? <==> !IsNoise(t, name, rt) && forall c :: !WordsSay(t, o, name, rt, c))
            && forall c :: r == Mapped(c) <==> !IsNoise(t, name, rt) && WordsSay(t, o, name, rt, c)
  {
    var r := Classify(t, idx, name, rt);
    forall c
      ensures r == Mapped(c) <==> !IsNoise(t, name, rt) && WordsSay(t, o, name, rt, c)
    {
      WordsAre(t, o, idx, name, rt, c);
    }
    if r.Mapped? {
      assert WordsSay(t, o, name, rt, r.canonical);
    }
  }

  /** The stored type, if any. */
  ghost function TypeOf(row: EdgeRow): Option<TypeName> {
    if row.relationType == "" then None else Some(row.relationType)
  }

  /** The edge is not noise and its words say `c`. */
  ghost predicate SaidToBe(t: Texts, o: Ontology, row: EdgeRow, c: TypeName) {
    !IsNoise(t, row.name, TypeOf(row)) && WordsSay(t, o, row.name, TypeOf(row), c)
  }

  /** The fallback is asked: the edge is not noise, its words say nothing, it has a fact, and the fact is close
    * enough to `c`. */
  ghost predicate FallsBackTo(t: Texts, o: Ontology, row: EdgeRow, c: TypeName) {
    && !IsNoise(t, row.name, TypeOf(row)) && (forall d :: !SaidToBe(t, o, row, d))
    && row.fact != "" && t.closest(row.fact) == Some(c)
  }

  ghost predicate Becomes(t: Texts, o: Ontology, row: EdgeRow, c: TypeName) {
    SaidToBe(t, o, row, c) || FallsBackTo(t, o, row, c)
  }

  lemma LexicalClassIs(t: Texts, o: Ontology, idx: LexicalIndex, row: EdgeRow)
    requires IndexIs(o, idx)
    ensures var r := LexicalClass(t, idx, row);
            && (r.Noise? <==> IsNoise(t, row.name, TypeOf(row)))
            && (r.Residual? <==> !IsNoise(t, row.name, TypeOf(row)) && forall c :: !SaidToBe(t, o, row, c))
            && forall c :: r == Mapped(c) <==> SaidToBe(t, o, row, c)
  {
    LexicalAnswer(t, o, idx, row.name, TypeOf(row));
    assert Read(row.relationType) == TypeOf(row);
    forall c
      ensures SaidToBe(t, o, row, c)
              <==> !IsNoise(t, row.name, TypeOf(row)) && WordsSay(t, o, row.name, TypeOf(row), c)
    {
    }
  }

  /** The class in the end, exactly. */
  lemma FinalAnswer(t: Texts, o: Ontology, idx: LexicalIndex, row: EdgeRow)
    requires IndexIs(o, idx)
    ensures var r := FinalClass(t, idx, row);
            && (r.Noise? <==> IsNoise(t, row.name, TypeOf(row)))
            && (r.Residual? <==> !IsNoise(t, row.name, TypeOf(row)) && forall c :: !Becomes(t, o, row, c))
            && (forall c :: r == Mapped(c) <==> Becomes(t, o, row, c))
            && (Promotes(t, idx, row) <==> exists c :: FallsBackTo(t, o, row, c))
  {
    LexicalClassIs(t, o, idx, row);
    var r := FinalClass(t, idx, row);
    forall c
      ensures r == Mapped(c) <==> Becomes(t, o, row, c)
    {
    }
    if r.Mapped? {
      assert Becomes(t, o, row, r.canonical);
    }
    if Promotes(t, idx, row) {
      assert FallsBackTo(t, o, row, t.closest(row.fact).value);
    }
  }

  // What a pass writes.

  /** The pass writes type `v` for the edge: the type it becomes, unless it has it already; the marker for an
    * edge that is nothing, unless it has that already; and the marker for noise without a type. */
  ghost predicate WritesType(t: Texts, o: Ontology, row: EdgeRow, v: TypeName) {
    if IsNoise(t, row.name, TypeOf(row)) then
      v == "UNCLASSIFIED" && (row.relationType == "" || t.trim(row.relationType) == "")
    else
      && TypeOf(row) != Some(v)
      && (Becomes(t, o, row, v) || (v == "UNCLASSIFIED" && forall c :: !Becomes(t, o, row, c)))
  }

  lemma WriteAnswer(t: Texts, o: Ontology, idx: LexicalIndex, row: EdgeRow)
    requires IndexIs(o, idx)
    ensures forall v :: WriteFor(t, idx, row) == Some(v) <==> WritesType(t, o, row, v)
  {
    FinalAnswer(t, o, idx, row);
    var r := FinalClass(t, idx, row);
    assert Read(row.relationType) == TypeOf(row);
    if r.Mapped? {
      assert Becomes(t, o, row, r.canonical);
      forall v
        ensures Becomes(t, o, row, v) <==> v == r.canonical
      {
      }
    }
  }

  /** The edge is of the group, and the pass writes `v` for it. */
  ghost predicate Rewrites(t: Texts, o: Ontology, rows: map<Uuid, EdgeRow>, group: GroupId, u: Uuid, v: TypeName) {
    u in rows && rows[u].group == group && WritesType(t, o, rows[u], v)
  }

  /** What a pass leaves: each edge for which something is written has that type, and nothing else changed. */
  lemma PassLeaves(t: Texts, o: Ontology, idx: LexicalIndex, rows: map<Uuid, EdgeRow>, group: GroupId, u: Uuid)
    requires IndexIs(o, idx)
    ensures var rows' := AfterPass(t, idx, rows, GroupEdges(rows, group));
            && (u in rows' <==> u in rows)
            && (forall v :: Rewrites(t, o, rows, group, u, v) ==> u in rows' && rows'[u] == rows[u].(relationType := v))
            && (u in rows && (forall v :: !Rewrites(t, o, rows, group, u, v)) ==> rows'[u] == rows[u])
  {
    if u in rows {
      WriteAnswer(t, o, idx, rows[u]);
      var w := WriteFor(t, idx, rows[u]);
      if w.Some? && rows[u].group == group {
        assert Rewrites(t, o, rows, group, u, w.value);
      }
    }
  }

  ghost predicate InUuidOrder(log: seq<Mutation>) {
    forall i, j :: 0 <= i < j < |log| ==> log[i].uuid < log[j].uuid
  }

  lemma {:induction false} WritesOf(t: Texts, o: Ontology, idx: LexicalIndex, rows: map<Uuid, EdgeRow>,
                                    order: seq<Uuid>, m: Mutation)
    requires IndexIs(o, idx) && forall u :: u in order ==> u in rows
    ensures m in Canonicalize.Writes(t, idx, rows, order)
            <==> m.uuid in order && WritesType(t, o, rows[m.uuid], m.value)
  {
    if order != [] {
      var front, last := order[..|order| - 1], order[|order| - 1];
      assert order == front + [last];
      WritesOf(t, o, idx, rows, front, m);
      WriteAnswer(t, o, idx, rows[last]);
    }
  }

  lemma {:induction false} WritesInOrder(t: Texts, idx: LexicalIndex, rows: map<Uuid, EdgeRow>, order: seq<Uuid>)
    requires forall u :: u in order ==> u in rows
    requires forall i, j :: 0 <= i < j < |order| ==> order[i] < order[j]
    ensures var log := Canonicalize.Writes(t, idx, rows, order);
            InUuidOrder(log) && forall i :: 0 <= i < |log| ==> log[i].uuid in order
  {
    if order != [] {
      var front, last := order[..|order| - 1], order[|order| - 1];
      assert order == front + [last];
      WritesInOrder(t, idx, rows, front);
      assert forall u :: u in front ==> u < last;
    }
  }

  /** What a pass logs: one write for each edge that it rewrites, in uuid order. */
  lemma PassLogs(t: Texts, o: Ontology, idx: LexicalIndex, rows: map<Uuid, EdgeRow>, group: GroupId)
    requires IndexIs(o, idx)
    ensures var log := Canonicalize.Writes(t, idx, rows, Sorted(GroupEdges(rows, group)));
            && InUuidOrder(log)
            && forall m :: m in log <==> Rewrites(t, o, rows, group, m.uuid, m.value)
  {
    var order := Sorted(GroupEdges(rows, group));
    WritesInOrder(t, idx, rows, order);
    forall m
      ensures m in Canonicalize.Writes(t, idx, rows, order) <==> Rewrites(t, o, rows, group, m.uuid, m.value)
    {
      WritesOf(t, o, idx, rows, order, m);
    }
  }
}
