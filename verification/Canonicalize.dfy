/** Relation canonicalization: the lexical index, the decision for one edge, the pass over a group's
  * edges, and what a second pass does. */
module Canonicalize {
  import opened Common
  import opened PropertyGraph
  import opened UuidOrder

  type TypeName = string

  const UNCLASSIFIED: TypeName := "UNCLASSIFIED"

  datatype RelationTypeDef = RelationTypeDef(
    name: TypeName,
    description: Option<string>,
    aliases: seq<TypeName>,
    keywords: seq<string>,
    extract: bool)

  type Ontology = seq<RelationTypeDef>

  /** The text functions the pass applies: the noise pattern, the relation-type normalizer, lower-case
    * and trim; and the embedding fallback, which for a fact names the closest described type when it is
    * close enough. */
  datatype Texts = Texts(
    isNoise: string -> bool,
    normalize: string -> string,
    lower: string -> string,
    trim: string -> string,
    closest: string -> Option<TypeName>)

  /** What is assumed of them: text that matches the noise pattern is not blank, nor is the marker for
    * unclassified edges, and the fallback names an extractable type. */
  ghost predicate Sane(t: Texts, o: Ontology) {
    && (forall s :: t.isNoise(s) ==> t.trim(s) != "")
    && t.trim(UNCLASSIFIED) != ""
    && (forall s :: t.closest(s).Some? ==> Extractable(o, t.closest(s).value))
  }

  /** What loading an ontology guarantees: no type is unnamed. */
  ghost predicate Loaded(o: Ontology) {
    forall i :: 0 <= i < |o| ==> o[i].name != ""
  }

  ghost predicate Extractable(o: Ontology, name: TypeName) {
    exists i :: 0 <= i < |o| && o[i].extract && o[i].name == name
  }

  ghost predicate Declared(o: Ontology, name: TypeName) {
    exists i :: 0 <= i < |o| && o[i].name == name
  }

  // The index.

  datatype Keyword = Keyword(text: string, canonical: TypeName)

  datatype LexicalIndex = LexicalIndex(
    exact: map<TypeName, TypeName>,
    keywords: seq<Keyword>,
    canonicalNames: set<TypeName>,
    assertOnlyNames: set<TypeName>)

  /** The name or an alias of an extractable type. */
  ghost predicate NamedBy(o: Ontology, key: TypeName, canonical: TypeName) {
    exists i :: 0 <= i < |o| && o[i].extract && o[i].name == canonical && (key == canonical || key in o[i].aliases)
  }

  predicate Names(rt: RelationTypeDef, key: TypeName) {
    rt.extract && (key == rt.name || key in rt.aliases)
  }

  /** Type `i` is the last that claims the key. */
  ghost predicate LastNames(o: Ontology, key: TypeName, i: nat) {
    i < |o| && Names(o[i], key) && forall j :: i < j < |o| ==> !Names(o[j], key)
  }

  /** Keys are the names and aliases of the extractable types; of several claims the last one wins. */
  ghost predicate ExactIs(o: Ontology, exact: map<TypeName, TypeName>) {
    && (forall key :: key in exact ==> NamedBy(o, key, exact[key]))
    && (forall key, canonical :: NamedBy(o, key, canonical) ==> key in exact)
    && (forall key, i: nat :: LastNames(o, key, i) ==> key in exact && exact[key] == o[i].name)
  }

  lemma NamedGrows(o: Ontology, rt: RelationTypeDef, key: TypeName, canonical: TypeName)
    ensures NamedBy(o + [rt], key, canonical)
            <==> NamedBy(o, key, canonical)
                 || (rt.extract && rt.name == canonical && (key == canonical || key in rt.aliases))
  {
    var more := o + [rt];
    if NamedBy(o, key, canonical) {
      var i :| 0 <= i < |o| && o[i].extract && o[i].name == canonical && (key == canonical || key in o[i].aliases);
      assert more[i] == o[i];
    }
    if rt.extract && rt.name == canonical && (key == canonical || key in rt.aliases) {
      assert more[|o|] == rt;
    }
  }

  lemma ExactStep(o: Ontology, rt: RelationTypeDef, exact: map<TypeName, TypeName>, exact': map<TypeName, TypeName>)
    requires ExactIs(o, exact)
    requires !rt.extract ==> exact' == exact
    requires rt.extract ==>
               && (forall key :: key in exact' <==> key in exact || key == rt.name || key in rt.aliases)
               && (forall key :: key in exact' ==>
                     exact'[key] == if key == rt.name || key in rt.aliases then rt.name else exact[key])
    ensures ExactIs(o + [rt], exact')
  {
    forall key, canonical
      ensures NamedBy(o + [rt], key, canonical)
              <==> NamedBy(o, key, canonical)
                   || (rt.extract && rt.name == canonical && (key == canonical || key in rt.aliases))
    {
      NamedGrows(o, rt, key, canonical);
    }
    forall key, i: nat | LastNames(o + [rt], key, i)
      ensures key in exact' && exact'[key] == (o + [rt])[i].name
    {
      LastClaimStands(o, rt, exact, exact', key, i);
    }
  }

  lemma LastClaimStands(o: Ontology, rt: RelationTypeDef, exact: map<TypeName, TypeName>,
                        exact': map<TypeName, TypeName>, key: TypeName, i: nat)
    requires ExactIs(o, exact) && LastNames(o + [rt], key, i)
    requires !rt.extract ==> exact' == exact
    requires rt.extract ==>
               && (forall key :: key in exact' <==> key in exact || key == rt.name || key in rt.aliases)
               && (forall key :: key in exact' ==>
                     exact'[key] == if key == rt.name || key in rt.aliases then rt.name else exact[key])
    ensures key in exact' && exact'[key] == (o + [rt])[i].name
  {
    var more := o + [rt];
    if i < |o| {
      assert !Names(more[|o|], key);
      assert forall j :: i < j < |o| ==> more[j] == o[j];
      assert LastNames(o, key, i);
    }
  }

  /** `build_alias_map`. */
  method BuildAliasMap(o: Ontology) returns (exact: map<TypeName, TypeName>)
    ensures ExactIs(o, exact)
  {
    exact := map[];
    for n := 0 to |o|
      invariant ExactIs(o[..n], exact)
    {
      var rt := o[n];
      assert o[..n + 1] == o[..n] + [rt];
      ghost var before := exact;
      if rt.extract {
        exact := InsertNames(exact, rt);
      }
      ExactStep(o[..n], rt, before, exact);
    }
    assert o[..|o|] == o;
  }

  method InsertNames(exact: map<TypeName, TypeName>, rt: RelationTypeDef) returns (exact': map<TypeName, TypeName>)
    ensures forall key :: key in exact' <==> key in exact || key == rt.name || key in rt.aliases
    ensures forall key :: key in exact' ==>
              exact'[key] == if key == rt.name || key in rt.aliases then rt.name else exact[key]
  {
    exact' := exact[rt.name := rt.name];
    for a := 0 to |rt.aliases|
      invariant forall key :: key in exact' <==> key in exact || key == rt.name || key in rt.aliases[..a]
      invariant forall key :: key in exact' ==>
                  exact'[key] == if key == rt.name || key in rt.aliases[..a] then rt.name else exact[key]
    {
      assert rt.aliases[..a + 1] == rt.aliases[..a] + [rt.aliases[a]];
      exact' := exact'[rt.aliases[a] := rt.name];
    }
    assert rt.aliases[..|rt.aliases|] == rt.aliases;
  }

  function KeywordsOf(rt: RelationTypeDef): seq<Keyword> {
    seq(|rt.keywords|, i requires 0 <= i < |rt.keywords| => Keyword(rt.keywords[i], rt.name))
  }

  /** The keywords of the extractable types, in declaration order. */
  function AllKeywords(o: Ontology): seq<Keyword> {
    if o == [] then []
    else
      var rt := o[|o| - 1];
      AllKeywords(o[..|o| - 1]) + if rt.extract then KeywordsOf(rt) else []
  }

  ghost predicate IndexIs(o: Ontology, idx: LexicalIndex) {
    && ExactIs(o, idx.exact)
    && idx.keywords == AllKeywords(o)
    && (forall name :: name in idx.canonicalNames <==> Declared(o, name))
    && (forall name :: name in idx.assertOnlyNames <==> exists i :: 0 <= i < |o| && !o[i].extract && o[i].name == name)
  }

  /** `build_lexical_index`. */
  method BuildLexicalIndex(o: Ontology) returns (idx: LexicalIndex)
    ensures IndexIs(o, idx)
  {
    var exact := BuildAliasMap(o);
    var keywords: seq<Keyword> := [];
    var canonical: set<TypeName>, assertOnly: set<TypeName> := {}, {};
    for n := 0 to |o|
      invariant keywords == AllKeywords(o[..n])
      invariant forall name :: name in canonical <==> exists i :: 0 <= i < n && o[i].name == name
      invariant forall name :: name in assertOnly <==> exists i :: 0 <= i < n && !o[i].extract && o[i].name == name
    {
      var rt := o[n];
      assert o[..n + 1][..n] == o[..n];
      canonical := canonical + {rt.name};
      if !rt.extract {
        assertOnly := assertOnly + {rt.name};
        continue;
      }
      keywords := keywords + KeywordsOf(rt);
    }
    assert o[..|o|] == o;
    idx := LexicalIndex(exact, keywords, canonical, assertOnly);
  }

  // One edge.

  datatype EdgeClass = Mapped(canonical: TypeName) | Noise | Residual

  predicate Contains(s: string, sub: string) {
    exists i, j :: 0 <= i <= j <= |s| && s[i..j] == sub
  }

  /** The first keyword that occurs in the text. */
  function KeywordHit(keywords: seq<Keyword>, s: string): Option<TypeName> {
    if keywords == [] then None
    else if Contains(s, keywords[0].text) then Some(keywords[0].canonical)
    else KeywordHit(keywords[1..], s)
  }

  /** A name or alias, else a keyword inside the normalized text. */
  function Match(t: Texts, idx: LexicalIndex, s: string): Option<TypeName> {
    var normalized := t.normalize(s);
    if normalized in idx.exact then Some(idx.exact[normalized])
    else KeywordHit(idx.keywords, t.lower(normalized))
  }

  /** `classify_edge_lexically`. */
  function Classify(t: Texts, idx: LexicalIndex, name: string, rt: Option<TypeName>): EdgeClass {
    if t.isNoise(name) || (rt.Some? && t.isNoise(rt.value)) then Noise
    else if rt.Some? && rt.value in idx.assertOnlyNames then Mapped(rt.value)
    else
      var byName := Match(t, idx, name);
      if byName.Some? then Mapped(byName.value)
      else if rt.None? then Residual
      else if rt.value in idx.canonicalNames then Mapped(rt.value)
      else
        var byType := Match(t, idx, rt.value);
        if byType.Some? then Mapped(byType.value) else Residual
  }

  lemma {:induction false} KeywordsAreExtractable(o: Ontology, k: nat)
    requires k < |AllKeywords(o)|
    ensures Extractable(o, AllKeywords(o)[k].canonical)
  {
    var front, rt := o[..|o| - 1], o[|o| - 1];
    if k < |AllKeywords(front)| {
      KeywordsAreExtractable(front, k);
      var i :| 0 <= i < |front| && front[i].extract && front[i].name == AllKeywords(front)[k].canonical;
      assert o[i] == front[i];
    } else {
      assert o[|o| - 1].extract && o[|o| - 1].name == AllKeywords(o)[k].canonical;
    }
  }

  lemma {:induction false} HitIsAKeyword(keywords: seq<Keyword>, s: string)
    ensures KeywordHit(keywords, s).Some? ==>
              exists k :: 0 <= k < |keywords| && keywords[k].canonical == KeywordHit(keywords, s).value
  {
    if keywords != [] && !Contains(s, keywords[0].text) && KeywordHit(keywords, s).Some? {
      HitIsAKeyword(keywords[1..], s);
      var k :| 0 <= k < |keywords[1..]| && keywords[1..][k].canonical == KeywordHit(keywords, s).value;
      assert keywords[k + 1].canonical == KeywordHit(keywords, s).value;
    }
  }

  /** Extracted evidence only ever maps to an extractable type. */
  lemma MatchIsExtractable(t: Texts, o: Ontology, idx: LexicalIndex, s: string)
    requires IndexIs(o, idx)
    ensures Match(t, idx, s).Some? ==> Extractable(o, Match(t, idx, s).value)
  {
    var normalized := t.normalize(s);
    if normalized in idx.exact {
      assert NamedBy(o, normalized, idx.exact[normalized]);
    } else if Match(t, idx, s).Some? {
      HitIsAKeyword(idx.keywords, t.lower(normalized));
      var k :| 0 <= k < |idx.keywords| && idx.keywords[k].canonical == Match(t, idx, s).value;
      KeywordsAreExtractable(o, k);
    }
  }

  /** An edge becomes a type it did not have only if that type is extractable; an edge already typed as
    * assert-only is left so unless it is noise. */
  lemma NeverRetypedToAssertOnly(t: Texts, o: Ontology, idx: LexicalIndex, name: string, rt: Option<TypeName>)
    requires IndexIs(o, idx)
    ensures var c := Classify(t, idx, name, rt);
            && (c.Mapped? && rt != Some(c.canonical) ==> Extractable(o, c.canonical))
            && (rt.Some? && rt.value in idx.assertOnlyNames && !t.isNoise(name) && !t.isNoise(rt.value) ==>
                  c == Mapped(rt.value))
  {
    MatchIsExtractable(t, o, idx, name);
    if rt.Some? {
      MatchIsExtractable(t, o, idx, rt.value);
    }
  }

  // The pass.

  /** A stored edge; a blank relation type is stored as the empty string. */
  datatype EdgeRow = EdgeRow(group: GroupId, name: string, relationType: TypeName, fact: string)

  function Read(stored: TypeName): Option<TypeName> {
    if stored == "" then None else Some(stored)
  }

  function LexicalClass(t: Texts, idx: LexicalIndex, row: EdgeRow): EdgeClass {
    Classify(t, idx, row.name, Read(row.relationType))
  }

  /** The class after the embedding fallback, which only residual edges with a fact get. */
  function FinalClass(t: Texts, idx: LexicalIndex, row: EdgeRow): EdgeClass {
    var c := LexicalClass(t, idx, row);
    if c.Residual? && row.fact != "" && t.closest(row.fact).Some? then Mapped(t.closest(row.fact).value) else c
  }

  /** What is written for an edge of this class, if anything. */
  function Write(t: Texts, rt: Option<TypeName>, c: EdgeClass): Option<TypeName> {
    match c
    case Mapped(canonical) => if rt == Some(canonical) then None else Some(canonical)
    case Residual => if rt == Some(UNCLASSIFIED) then None else Some(UNCLASSIFIED)
    case Noise => if rt.Some? && t.trim(rt.value) != "" then None else Some(UNCLASSIFIED)
  }

  function WriteFor(t: Texts, idx: LexicalIndex, row: EdgeRow): Option<TypeName> {
    Write(t, Read(row.relationType), FinalClass(t, idx, row))
  }

  function Settled(t: Texts, idx: LexicalIndex, row: EdgeRow): EdgeRow {
    var w := WriteFor(t, idx, row);
    if w.Some? then row.(relationType := w.value) else row
  }

  datatype Mutation = SetRelationType(uuid: Uuid, value: TypeName)

  datatype Report = Report(total: nat, mapped: nat, noise: nat, residual: nat, promoted: nat)

  function GroupEdges(rows: map<Uuid, EdgeRow>, group: GroupId): set<Uuid> {
    set u | u in rows && rows[u].group == group
  }

  /** The writes for the edges in order. */
  function Writes(t: Texts, idx: LexicalIndex, rows: map<Uuid, EdgeRow>, order: seq<Uuid>): seq<Mutation>
    requires forall u :: u in order ==> u in rows
  {
    if order == [] then []
    else
      var u := order[|order| - 1];
      var w := WriteFor(t, idx, rows[u]);
      Writes(t, idx, rows, order[..|order| - 1]) + if w.Some? then [SetRelationType(u, w.value)] else []
  }

  function Elements(order: seq<Uuid>): set<Uuid> {
    set u | u in order
  }

  /** The table after the edges in `done` have been settled. */
  function AfterPass(t: Texts, idx: LexicalIndex, rows: map<Uuid, EdgeRow>, done: set<Uuid>): map<Uuid, EdgeRow> {
    map u | u in rows :: if u in done then Settled(t, idx, rows[u]) else rows[u]
  }

  /** The fallback gives this edge a type. */
  predicate Promotes(t: Texts, idx: LexicalIndex, row: EdgeRow) {
    LexicalClass(t, idx, row).Residual? && row.fact != "" && t.closest(row.fact).Some?
  }

  function PromotedCount(t: Texts, idx: LexicalIndex, rows: map<Uuid, EdgeRow>, order: seq<Uuid>): nat
    requires forall u :: u in order ==> u in rows
  {
    if order == [] then 0
    else PromotedCount(t, idx, rows, order[..|order| - 1]) + if Promotes(t, idx, rows[order[|order| - 1]]) then 1 else 0
  }

  function CountWhere(cs: seq<EdgeClass>, p: EdgeClass -> bool): nat {
    if cs == [] then 0 else CountWhere(cs[..|cs| - 1], p) + if p(cs[|cs| - 1]) then 1 else 0
  }

  /** The edges among `edges` whose final class is such. */
  ghost function OfClass(t: Texts, idx: LexicalIndex, rows: map<Uuid, EdgeRow>, edges: set<Uuid>,
                         p: EdgeClass -> bool): set<Uuid>
    requires edges <= rows.Keys
  {
    set u | u in edges && p(FinalClass(t, idx, rows[u]))
  }

  ghost function Promoted(t: Texts, idx: LexicalIndex, rows: map<Uuid, EdgeRow>, edges: set<Uuid>): set<Uuid>
    requires edges <= rows.Keys
  {
    set u | u in edges && Promotes(t, idx, rows[u])
  }

  lemma {:induction false} ClassCountIsASet(t: Texts, idx: LexicalIndex, rows: map<Uuid, EdgeRow>, order: seq<Uuid>,
                                            classes: seq<EdgeClass>, p: EdgeClass -> bool)
    requires Distinct(order) && |classes| == |order| && forall u :: u in order ==> u in rows
    requires forall i :: 0 <= i < |order| ==> classes[i] == FinalClass(t, idx, rows[order[i]])
    ensures CountWhere(classes, p) == |OfClass(t, idx, rows, Elements(order), p)|
  {
    if order == [] {
      assert OfClass(t, idx, rows, Elements(order), p) == {};
    } else {
      var front, last := order[..|order| - 1], order[|order| - 1];
      assert order == front + [last] && last !in front;
      ClassCountIsASet(t, idx, rows, front, classes[..|order| - 1], p);
      var before := OfClass(t, idx, rows, Elements(front), p);
      assert OfClass(t, idx, rows, Elements(order), p)
          == if p(classes[|order| - 1]) then before + {last} else before;
    }
  }

  lemma {:induction false} PromotedCountIsASet(t: Texts, idx: LexicalIndex, rows: map<Uuid, EdgeRow>,
                                               order: seq<Uuid>)
    requires Distinct(order) && forall u :: u in order ==> u in rows
    ensures PromotedCount(t, idx, rows, order) == |Promoted(t, idx, rows, Elements(order))|
  {
    if order == [] {
      assert Promoted(t, idx, rows, Elements(order)) == {};
    } else {
      var front, last := order[..|order| - 1], order[|order| - 1];
      assert order == front + [last] && last !in front;
      PromotedCountIsASet(t, idx, rows, front);
      var before := Promoted(t, idx, rows, Elements(front));
      assert Promoted(t, idx, rows, Elements(order))
          == if Promotes(t, idx, rows[last]) then before + {last} else before;
    }
  }

  class EdgeTable {
    var rows: map<Uuid, EdgeRow>
    var mutations: seq<Mutation>

    constructor (rows: map<Uuid, EdgeRow>)
      ensures this.rows == rows && mutations == []
    {
      this.rows := rows;
      mutations := [];
    }

    /** The lexical phase. */
    method ClassifyAll(t: Texts, idx: LexicalIndex, order: seq<Uuid>) returns (classes: seq<EdgeClass>)
      requires forall u :: u in order ==> u in rows
      ensures |classes| == |order|
      ensures forall i :: 0 <= i < |order| ==> classes[i] == LexicalClass(t, idx, rows[order[i]])
    {
      classes := [];
      for i := 0 to |order|
        invariant |classes| == i
        invariant forall j :: 0 <= j < i ==> classes[j] == LexicalClass(t, idx, rows[order[j]])
      {
        assert order[i] in order;
        var row := rows[order[i]];
        classes := classes + [Classify(t, idx, row.name, Read(row.relationType))];
      }
    }

    /** The embedding fallback over the residual edges. */
    method PromoteResiduals(t: Texts, idx: LexicalIndex, order: seq<Uuid>, lexical: seq<EdgeClass>)
      returns (classes: seq<EdgeClass>, promoted: nat)
      requires |lexical| == |order| && forall u :: u in order ==> u in rows
      requires forall i :: 0 <= i < |order| ==> lexical[i] == LexicalClass(t, idx, rows[order[i]])
      ensures |classes| == |order|
      ensures forall i :: 0 <= i < |order| ==> classes[i] == FinalClass(t, idx, rows[order[i]])
      ensures promoted == PromotedCount(t, idx, rows, order)
    {
      classes, promoted := [], 0;
      for i := 0 to |order|
        invariant |classes| == i && promoted == PromotedCount(t, idx, rows, order[..i])
        invariant forall j :: 0 <= j < i ==> classes[j] == FinalClass(t, idx, rows[order[j]])
      {
        assert order[i] in order && order[..i + 1][..i] == order[..i];
        var fact := rows[order[i]].fact;
        var best := if lexical[i].Residual? && fact != "" then t.closest(fact) else None;
        if best.Some? {
          promoted := promoted + 1;
        }
        classes := classes + [if best.Some? then Mapped(best.value) else lexical[i]];
      }
      assert order[..|order|] == order;
    }

    /** One edge of the write phase. */
    method ApplyOne(t: Texts, u: Uuid, rt: Option<TypeName>, c: EdgeClass)
      requires u in rows
      modifies this
      ensures var w := Write(t, rt, c);
              && rows == (if w.Some? then old(rows)[u := old(rows)[u].(relationType := w.value)] else old(rows))
              && mutations == old(mutations) + if w.Some? then [SetRelationType(u, w.value)] else []
    {
      match c {
        case Mapped(canonical) =>
          if rt != Some(canonical) {
            SetType(u, canonical);
          }
        case Residual =>
          if rt != Some(UNCLASSIFIED) {
            SetType(u, UNCLASSIFIED);
          }
        case Noise =>
          var current := if rt.Some? then rt.value else "";
          if rt.None? || t.trim(current) == "" {
            SetType(u, UNCLASSIFIED);
          }
      }
    }

    method SetType(u: Uuid, value: TypeName)
      requires u in rows
      modifies this
      ensures rows == old(rows)[u := old(rows)[u].(relationType := value)]
      ensures mutations == old(mutations) + [SetRelationType(u, value)]
    {
      rows := rows[u := rows[u].(relationType := value)];
      mutations := mutations + [SetRelationType(u, value)];
    }

    /** The write phase over the classified edges, which are the rows as they were read. */
    method ApplyAll(t: Texts, idx: LexicalIndex, order: seq<Uuid>, classes: seq<EdgeClass>)
      requires |classes| == |order| && Distinct(order) && (forall u :: u in order ==> u in rows)
      requires forall i :: 0 <= i < |order| ==> classes[i] == FinalClass(t, idx, rows[order[i]])
      modifies this
      ensures rows == AfterPass(t, idx, old(rows), Elements(order))
      ensures mutations == old(mutations) + Writes(t, idx, old(rows), order)
    {
      ghost var before, log := rows, mutations;
      var asRead := rows;
      for i := 0 to |order|
        invariant rows == AfterPass(t, idx, before, Elements(order[..i]))
        invariant mutations == log + Writes(t, idx, before, order[..i])
      {
        var u := order[i];
        assert u in order && u !in order[..i];
        PassStep(t, idx, before, order, i);
        ApplyOne(t, u, Read(asRead[u].relationType), classes[i]);
      }
      assert order[..|order|] == order;
    }

    /** `canonicalize_relations`. */
    method CanonicalizeRelations(t: Texts, o: Ontology, group: GroupId, dryRun: bool)
      returns (r: Report, ghost idx: LexicalIndex)
      modifies this
      ensures IndexIs(o, idx)
      ensures r.mapped + r.noise + r.residual == r.total == |GroupEdges(old(rows), group)|
      ensures var edges := GroupEdges(old(rows), group);
              && r.mapped == |OfClass(t, idx, old(rows), edges, (c: EdgeClass) => c.Mapped?)|
              && r.noise == |OfClass(t, idx, old(rows), edges, (c: EdgeClass) => c.Noise?)|
              && r.residual == |OfClass(t, idx, old(rows), edges, (c: EdgeClass) => c.Residual?)|
              && r.promoted == |Promoted(t, idx, old(rows), edges)|
      ensures dryRun ==> rows == old(rows) && mutations == old(mutations)
      ensures !dryRun ==> rows == AfterPass(t, idx, old(rows), GroupEdges(old(rows), group))
      ensures !dryRun ==> mutations == old(mutations) + Writes(t, idx, old(rows), Sorted(GroupEdges(old(rows), group)))
    {
      var edges := GroupEdges(rows, group);
      var order := Sorted(edges);
      assert Elements(order) == edges;
      var index := BuildLexicalIndex(o);
      idx := index;
      var lexical := ClassifyAll(t, index, order);
      var classes, promoted := PromoteResiduals(t, index, order, lexical);
      var mapped, noise, residual := CountClasses(classes);
      r := Report(|order|, mapped, noise, residual, promoted);
      PromotedCountIsASet(t, index, rows, order);
      ClassCountIsASet(t, index, rows, order, classes, (c: EdgeClass) => c.Mapped?);
      ClassCountIsASet(t, index, rows, order, classes, (c: EdgeClass) => c.Noise?);
      ClassCountIsASet(t, index, rows, order, classes, (c: EdgeClass) => c.Residual?);
      if !dryRun {
        ApplyAll(t, index, order, classes);
      }
    }
  }

  method CountClasses(classes: seq<EdgeClass>) returns (mapped: nat, noise: nat, residual: nat)
    ensures mapped == CountWhere(classes, (c: EdgeClass) => c.Mapped?)
    ensures noise == CountWhere(classes, (c: EdgeClass) => c.Noise?)
    ensures residual == CountWhere(classes, (c: EdgeClass) => c.Residual?)
    ensures mapped + noise + residual == |classes|
  {
    mapped, noise, residual := 0, 0, 0;
    for i := 0 to |classes|
      invariant mapped == CountWhere(classes[..i], (c: EdgeClass) => c.Mapped?)
      invariant noise == CountWhere(classes[..i], (c: EdgeClass) => c.Noise?)
      invariant residual == CountWhere(classes[..i], (c: EdgeClass) => c.Residual?)
      invariant mapped + noise + residual == i
    {
      assert classes[..i + 1][..i] == classes[..i];
      match classes[i] {
        case Mapped(_) => mapped := mapped + 1;
        case Noise => noise := noise + 1;
        case Residual => residual := residual + 1;
      }
    }
    assert classes[..|classes|] == classes;
  }

  lemma PassStep(t: Texts, idx: LexicalIndex, rows: map<Uuid, EdgeRow>, order: seq<Uuid>, i: nat)
    requires i < |order| && Distinct(order) && forall u :: u in order ==> u in rows
    ensures var u := order[i];
            var before := AfterPass(t, idx, rows, Elements(order[..i]));
            && u in before && before[u] == rows[u]
            && AfterPass(t, idx, rows, Elements(order[..i + 1])) == before[u := Settled(t, idx, rows[u])]
            && (WriteFor(t, idx, rows[u]).None? ==> before[u := Settled(t, idx, rows[u])] == before)
            && order[..i + 1][..i] == order[..i]
  {
    assert order[..i + 1] == order[..i] + [order[i]];
  }

  // What the pass keeps, and what a second one does.

  /** A noise edge that has a relation type keeps it. */
  lemma NoiseKeepsItsType(t: Texts, idx: LexicalIndex, row: EdgeRow)
    requires FinalClass(t, idx, row).Noise? && t.trim(row.relationType) != "" && row.relationType != ""
    ensures Settled(t, idx, row) == row
  {
  }

  /** The marker for unclassified edges would itself be remapped. */
  predicate MarkerIsRemapped(t: Texts, idx: LexicalIndex) {
    && !t.isNoise(UNCLASSIFIED)
    && UNCLASSIFIED !in idx.canonicalNames
    && Match(t, idx, UNCLASSIFIED).Some?
  }

  /** An edge is written again by a second pass if and only if the first left it residual and the
    * marker it was given is itself an alias of, or contains a keyword of, some extractable type. */
  lemma SecondWriteIff(t: Texts, o: Ontology, idx: LexicalIndex, row: EdgeRow)
    requires IndexIs(o, idx) && Sane(t, o) && Loaded(o)
    ensures WriteFor(t, idx, Settled(t, idx, row)).Some?
            <==> FinalClass(t, idx, row).Residual? && MarkerIsRemapped(t, idx)
  {
    match FinalClass(t, idx, row)
    case Noise => NoiseSettles(t, o, idx, row);
    case Mapped(_) => MappedSettles(t, o, idx, row);
    case Residual => ResidualSettles(t, o, idx, row);
  }

  lemma NoiseSettles(t: Texts, o: Ontology, idx: LexicalIndex, row: EdgeRow)
    requires IndexIs(o, idx) && Sane(t, o) && FinalClass(t, idx, row).Noise?
    ensures WriteFor(t, idx, Settled(t, idx, row)).None?
  {
    if !t.isNoise(row.name) {
      assert t.trim(row.relationType) != "";
    }
  }

  /** A canonical name is never rewritten on an edge whose name gives no other evidence. */
  lemma MappedSettles(t: Texts, o: Ontology, idx: LexicalIndex, row: EdgeRow)
    requires IndexIs(o, idx) && Sane(t, o) && Loaded(o) && FinalClass(t, idx, row).Mapped?
    ensures WriteFor(t, idx, Settled(t, idx, row)).None?
  {
    var canonical := FinalClass(t, idx, row).canonical;
    NeverRetypedToAssertOnly(t, o, idx, row.name, Read(row.relationType));
    var after := Settled(t, idx, row);
    assert canonical != "" && after.relationType == canonical by {
      if Read(row.relationType) != Some(canonical) {
        assert Extractable(o, canonical);
      }
    }
    assert Read(after.relationType) == Some(canonical);
    if t.isNoise(canonical) {
      assert Classify(t, idx, row.name, Some(canonical)).Noise?;
    } else if canonical !in idx.assertOnlyNames && Match(t, idx, row.name).None? {
      if Read(row.relationType) != Some(canonical) {
        assert Declared(o, canonical);
      }
      assert Classify(t, idx, row.name, Some(canonical)) in {Mapped(canonical)};
    }
  }

  lemma ResidualSettles(t: Texts, o: Ontology, idx: LexicalIndex, row: EdgeRow)
    requires IndexIs(o, idx) && Sane(t, o) && FinalClass(t, idx, row).Residual?
    ensures WriteFor(t, idx, Settled(t, idx, row)).Some? <==> MarkerIsRemapped(t, idx)
  {
    var after := Settled(t, idx, row);
    assert after.relationType == UNCLASSIFIED && Read(after.relationType) == Some(UNCLASSIFIED);
    if MarkerIsRemapped(t, idx) {
      MatchIsExtractable(t, o, idx, UNCLASSIFIED);
      var c := Match(t, idx, UNCLASSIFIED).value;
      assert Declared(o, c);
    }
    assert UNCLASSIFIED in idx.assertOnlyNames ==> Declared(o, UNCLASSIFIED);
  }

  /** A second pass issues no mutation if and only if the marker is not remapped, or the first pass
    * left no edge of the group residual. */
  lemma SecondPassIsSilentIff(t: Texts, o: Ontology, idx: LexicalIndex, rows: map<Uuid, EdgeRow>, group: GroupId)
    requires IndexIs(o, idx) && Sane(t, o) && Loaded(o)
    ensures var rows' := AfterPass(t, idx, rows, GroupEdges(rows, group));
            && GroupEdges(rows', group) == GroupEdges(rows, group)
            && (Writes(t, idx, rows', Sorted(GroupEdges(rows', group))) == []
                <==> !MarkerIsRemapped(t, idx)
                     || forall u :: u in GroupEdges(rows, group) ==> !FinalClass(t, idx, rows[u]).Residual?)
  {
    var edges := GroupEdges(rows, group);
    var rows' := AfterPass(t, idx, rows, edges);
    forall u | u in rows
      ensures rows'[u].group == rows[u].group
    {
    }
    assert GroupEdges(rows', group) == edges;
    forall u | u in edges
      ensures WriteFor(t, idx, rows'[u]).Some? <==> FinalClass(t, idx, rows[u]).Residual? && MarkerIsRemapped(t, idx)
    {
      SecondWriteIff(t, o, idx, rows[u]);
    }
    NoWritesIff(t, idx, rows', Sorted(edges));
  }

  lemma {:induction false} NoWritesIff(t: Texts, idx: LexicalIndex, rows: map<Uuid, EdgeRow>, order: seq<Uuid>)
    requires forall u :: u in order ==> u in rows
    ensures Writes(t, idx, rows, order) == [] <==> forall u :: u in order ==> WriteFor(t, idx, rows[u]).None?
  {
    if order != [] {
      var front, last := order[..|order| - 1], order[|order| - 1];
      assert order == front + [last];
      NoWritesIff(t, idx, rows, front);
    }
  }

  // A second pass that is not silent.

  const PLAIN := Texts(
    (s: string) => false, (s: string) => s, (s: string) => s, (s: string) => s, (s: string) => None)

  /** The marker is an alias of the only type. */
  const GREEDY: Ontology := [RelationTypeDef("KNOWS", None, [UNCLASSIFIED], [], true)]

  const GREEDY_INDEX := LexicalIndex(map["KNOWS" := "KNOWS", UNCLASSIFIED := "KNOWS"], [], {"KNOWS"}, {})

  /** Edge 7 gives no evidence of any type. */
  const MUTE: map<Uuid, EdgeRow> := map[7 := EdgeRow("G", "m", "", "")]

  lemma GreedyIndex()
    ensures IndexIs(GREEDY, GREEDY_INDEX) && Sane(PLAIN, GREEDY) && Loaded(GREEDY)
  {
    assert GREEDY[0].name == "KNOWS" && GREEDY[0].extract && GREEDY[0].keywords == [];
    assert AllKeywords(GREEDY[..0]) == [];
    assert AllKeywords(GREEDY) == [];
    forall key, canonical
      ensures NamedBy(GREEDY, key, canonical) <==> key in GREEDY_INDEX.exact && canonical == GREEDY_INDEX.exact[key]
    {
    }
    forall name
      ensures Declared(GREEDY, name) <==> name == "KNOWS"
    {
    }
  }

  /** The first pass marks the edge unclassified, and the second gives it the type that claims the marker. */
  lemma SecondPassRetypes()
    ensures var rows' := AfterPass(PLAIN, GREEDY_INDEX, MUTE, GroupEdges(MUTE, "G"));
            && IndexIs(GREEDY, GREEDY_INDEX) && Sane(PLAIN, GREEDY) && Loaded(GREEDY)
            && MarkerIsRemapped(PLAIN, GREEDY_INDEX)
            && 7 in rows' && rows'[7].relationType == UNCLASSIFIED
            && Settled(PLAIN, GREEDY_INDEX, rows'[7]).relationType == "KNOWS"
            && Writes(PLAIN, GREEDY_INDEX, rows', Sorted(GroupEdges(rows', "G"))) != []
  {
    GreedyIndex();
    MuteIsResidual();
    assert 7 in GroupEdges(MUTE, "G");
    SecondPassIsSilentIff(PLAIN, GREEDY, GREEDY_INDEX, MUTE, "G");
  }

  lemma MuteIsResidual()
    ensures FinalClass(PLAIN, GREEDY_INDEX, MUTE[7]) == Residual && MarkerIsRemapped(PLAIN, GREEDY_INDEX)
    ensures Settled(PLAIN, GREEDY_INDEX, MUTE[7]).relationType == UNCLASSIFIED
    ensures Settled(PLAIN, GREEDY_INDEX, Settled(PLAIN, GREEDY_INDEX, MUTE[7])).relationType == "KNOWS"
  {
    var none: seq<Keyword> := [];
    assert KeywordHit(none, "m") == None;
    assert |"m"| == 1 && |"KNOWS"| == 5 && |UNCLASSIFIED| == 12;
    assert "m" !in GREEDY_INDEX.exact && UNCLASSIFIED != "KNOWS";
  }
}
