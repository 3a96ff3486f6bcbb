/** Entity type labels: stamping a type with its ancestors and the immutable kind, and recovering the
  * type from the labels. */
module LeafTypes {
  import opened Common
  import opened PropertyGraph

  type Type = string

  /** Each declared type with its ancestors, the implicit root left out. */
  type AncestorMap = map<Type, seq<Type>>

  function Ancestors(anc: AncestorMap, t: Type): seq<Type> {
    if t in anc then anc[t] else []
  }

  /** What loading the ontology guarantees of the ancestor lists: transitive, without cycles, repetitions
    * or the root. */
  ghost predicate Hierarchy(anc: AncestorMap) {
    DEFAULT_KIND !in anc && forall t :: t in anc ==>
      && t !in anc[t] && DEFAULT_KIND !in anc[t]
      && (forall i, j :: 0 <= i < j < |anc[t]| ==> anc[t][i] != anc[t][j])
      && (forall a :: a in anc[t] ==> forall b :: b in Ancestors(anc, a) ==> b in anc[t])
  }

  // Stamping.

  function EnforceEntityFirst(labels: seq<Type>): seq<Type> {
    if labels != [] && labels[0] == DEFAULT_KIND then labels else [DEFAULT_KIND] + Without(labels, [DEFAULT_KIND])
  }

  /** The labels that are not among `gone`, in order. */
  function Without(labels: seq<Type>, gone: seq<Type>): (r: seq<Type>)
    ensures forall l :: l in r <==> l in labels && l !in gone
  {
    if labels == [] then []
    else
      assert labels == [labels[0]] + labels[1..];
      (if labels[0] in gone then [] else [labels[0]]) + Without(labels[1..], gone)
  }

  function LabelsWithKind(labels: seq<Type>, kind: Kind): seq<Type> {
    var out := EnforceEntityFirst(labels);
    if kind in out then out else out + [kind]
  }

  /** The labels written for an entity that is given type `t`. */
  function Stamped(anc: AncestorMap, t: Type, kind: Option<Kind>): seq<Type> {
    var labels := [DEFAULT_KIND] + Ancestors(anc, t) + [t];
    if kind.Some? then LabelsWithKind(labels, kind.value) else labels
  }

  datatype LabelRow = LabelRow(kind: Kind, labels: seq<Type>)

  class LabelTable {
    var rows: map<Uuid, LabelRow>

    constructor (rows: map<Uuid, LabelRow>)
      ensures this.rows == rows
    {
      this.rows := rows;
    }

    /** `apply_entity_type_labels`: updates with an empty type are skipped, a later update of the same
      * entity wins, and updates of unknown entities write nothing. */
    method ApplyEntityTypeLabels(updates: seq<(Uuid, Type)>, anc: AncestorMap) returns (count: nat)
      modifies this
      ensures rows.Keys == old(rows).Keys
      ensures count == |Effective(updates)|
      ensures forall u :: u in rows ==> rows[u] == Labelled(anc, updates, u, old(rows)[u])
    {
      count := 0;
      for i := 0 to |updates|
        invariant rows.Keys == old(rows).Keys && count == |Effective(updates[..i])|
        invariant forall u :: u in rows ==> rows[u] == Labelled(anc, updates[..i], u, old(rows)[u])
      {
        assert updates[..i + 1][..i] == updates[..i];
        var (u, t) := updates[i];
        if t == "" {
          continue;
        }
        if u in rows {
          rows := rows[u := rows[u].(labels := Stamped(anc, t, Some(rows[u].kind)))];
        }
        count := count + 1;
      }
      assert updates[..|updates|] == updates;
    }
  }

  function Effective(updates: seq<(Uuid, Type)>): seq<(Uuid, Type)> {
    if updates == [] then []
    else Effective(updates[..|updates| - 1]) + if updates[|updates| - 1].1 == "" then [] else [updates[|updates| - 1]]
  }

  /** The row as the last effective update of its entity leaves it. */
  function Labelled(anc: AncestorMap, updates: seq<(Uuid, Type)>, u: Uuid, row: LabelRow): (r: LabelRow)
    ensures r.kind == row.kind
  {
    if updates == [] then row
    else
      var before, (v, t) := Labelled(anc, updates[..|updates| - 1], u, row), updates[|updates| - 1];
      if v == u && t != "" then before.(labels := Stamped(anc, t, Some(row.kind))) else before
  }

  /** The labels written: the root, the ancestors, the type, and the kind unless it is among them. */
  lemma StampedIs(anc: AncestorMap, t: Type, kind: Option<Kind>)
    ensures var above: seq<Type> := if t in anc then anc[t] else [];
            Stamped(anc, t, kind)
            == ["Entity"] + above + [t]
               + if kind.None? || kind.value in ["Entity", t] + above then [] else [kind.value]
  {
    var above: seq<Type> := if t in anc then anc[t] else [];
    var plain := ["Entity"] + above + [t];
    assert plain[0] == "Entity" && plain + [] == plain;
    assert forall l :: l in plain <==> l in ["Entity", t] + above;
  }

  /** Update `i` gives entity `u` a type. */
  ghost predicate Gives(updates: seq<(Uuid, Type)>, i: nat, u: Uuid) {
    i < |updates| && updates[i].0 == u && updates[i].1 != ""
  }

  /** The last update that gives the entity a type decides its labels. */
  lemma {:induction false} LastUpdateDecides(anc: AncestorMap, updates: seq<(Uuid, Type)>, u: Uuid, row: LabelRow,
                                             i: nat)
    requires Gives(updates, i, u) && forall j: nat :: i < j ==> !Gives(updates, j, u)
    ensures Labelled(anc, updates, u, row) == LabelRow(row.kind, Stamped(anc, updates[i].1, Some(row.kind)))
  {
    var n := |updates| - 1;
    if i < n {
      var front := updates[..n];
      assert !Gives(updates, n, u);
      assert Gives(front, i, u);
      forall j: nat | i < j
        ensures !Gives(front, j, u)
      {
        assert !Gives(updates, j, u);
      }
      LastUpdateDecides(anc, front, u, row, i);
    }
  }

  /** Without such an update they stay. */
  lemma {:induction false} NoUpdateNoChange(anc: AncestorMap, updates: seq<(Uuid, Type)>, u: Uuid, row: LabelRow)
    requires forall i: nat :: !Gives(updates, i, u)
    ensures Labelled(anc, updates, u, row) == row
  {
    if updates != [] {
      var n := |updates| - 1;
      assert !Gives(updates, n, u);
      forall i: nat
        ensures !Gives(updates[..n], i, u)
      {
        assert !Gives(updates, i, u);
      }
      NoUpdateNoChange(anc, updates[..n], u, row);
    }
  }

  /** The count is the number of updates that give a type. */
  lemma {:induction false} EffectiveCount(updates: seq<(Uuid, Type)>)
    ensures |Effective(updates)| == |set i: nat | i < |updates| && updates[i].1 != ""|
  {
    var all := set i: nat | i < |updates| && updates[i].1 != "";
    if updates == [] {
      assert all == {};
    } else {
      var n := |updates| - 1;
      EffectiveCount(updates[..n]);
      var before := set i: nat | i < |updates[..n]| && updates[..n][i].1 != "";
      assert n !in before;
      assert all == if updates[n].1 == "" then before else before + {n};
    }
  }

  // Recovering.

  /** Some label of the list has `t` among its ancestors. */
  predicate Covered(anc: AncestorMap, labels: seq<Type>, t: Type) {
    exists i :: 0 <= i < |labels| && labels[i] != t && t in Ancestors(anc, labels[i])
  }

  function LeavesAmong(anc: AncestorMap, labels: seq<Type>, all: seq<Type>): (r: seq<Type>)
    ensures forall l :: l in r <==> l in labels && !Covered(anc, all, l)
  {
    if labels == [] then []
    else
      assert labels == labels[..|labels| - 1] + [labels[|labels| - 1]];
      var last := labels[|labels| - 1];
      LeavesAmong(anc, labels[..|labels| - 1], all) + if Covered(anc, all, last) then [] else [last]
  }

  /** `find_leaf_type`. */
  function FindLeafType(labels: seq<Type>, anc: AncestorMap): Option<Type> {
    var specific := Without(labels, [DEFAULT_KIND]);
    var leaves := LeavesAmong(anc, specific, specific);
    if |leaves| == 1 then Some(leaves[0]) else None
  }

  /** `find_leaf_type_with_kind`. */
  function FindLeafTypeWithKind(labels: seq<Type>, anc: AncestorMap, kind: Kind): Option<Type> {
    var leaf := FindLeafType(labels, anc);
    if leaf.Some? then leaf
    else if kind == DEFAULT_KIND then None
    else FindLeafType(Without(labels, [kind] + Ancestors(anc, kind)), anc)
  }

  lemma {:induction false} WithoutRepeats(labels: seq<Type>, gone: seq<Type>)
    requires Distinct(labels)
    ensures Distinct(Without(labels, gone))
  {
    if labels != [] {
      WithoutRepeats(labels[1..], gone);
      assert labels[0] !in labels[1..];
    }
  }

  lemma OnceMore(labels: seq<Type>, last: Type, t: Type)
    ensures multiset(labels + [last])[t] == multiset(labels)[t] + if last == t then 1 else 0
  {
  }

  lemma {:induction false} LeavesOccur(anc: AncestorMap, labels: seq<Type>, all: seq<Type>, t: Type)
    ensures multiset(LeavesAmong(anc, labels, all))[t] == if Covered(anc, all, t) then 0 else multiset(labels)[t]
  {
    if labels != [] {
      var front, last := labels[..|labels| - 1], labels[|labels| - 1];
      LeavesOccur(anc, front, all, t);
      assert labels == front + [last];
      OnceMore(front, last, t);
      var leaves := LeavesAmong(anc, front, all);
      OnceMore(leaves, last, t);
      assert LeavesAmong(anc, labels, all) == if Covered(anc, all, last) then leaves else leaves + [last];
    }
  }

  lemma {:induction false} WithoutOccurs(labels: seq<Type>, gone: seq<Type>, t: Type)
    ensures multiset(Without(labels, gone))[t] == if t in gone then 0 else multiset(labels)[t]
  {
    if labels != [] {
      WithoutOccurs(labels[1..], gone, t);
      assert labels == [labels[0]] + labels[1..];
    }
  }

  /** Of the specific labels `t` alone is no other's ancestor. */
  ghost predicate OnlyLeaf(labels: seq<Type>, anc: AncestorMap, t: Type) {
    var specific := Without(labels, [DEFAULT_KIND]);
    forall l :: l in specific && !Covered(anc, specific, l) <==> l == t
  }

  /** A leaf is found exactly when one specific label alone is no other's ancestor, and the list has that
    * label once. */
  lemma LeafIsTheOne(labels: seq<Type>, anc: AncestorMap, t: Type)
    ensures FindLeafType(labels, anc) == Some(t) <==> OnlyLeaf(labels, anc, t) && multiset(labels)[t] == 1
  {
    var specific := Without(labels, [DEFAULT_KIND]);
    var leaves := LeavesAmong(anc, specific, specific);
    WithoutOccurs(labels, [DEFAULT_KIND], t);
    LeavesOccur(anc, specific, specific, t);
    OneElement(leaves, t);
    assert forall l :: l in leaves <==> l in specific && !Covered(anc, specific, l);
  }

  lemma {:induction false} AllTheSame(leaves: seq<Type>, t: Type)
    requires forall l <- leaves :: l == t
    ensures multiset(leaves)[t] == |leaves|
  {
    if leaves != [] {
      assert leaves == [leaves[0]] + leaves[1..] && leaves[0] in leaves;
      assert forall l <- leaves[1..] :: l in leaves;
      AllTheSame(leaves[1..], t);
    }
  }

  lemma OneElement(leaves: seq<Type>, t: Type)
    ensures |leaves| == 1 && leaves[0] == t <==> (forall l :: l in leaves <==> l == t) && multiset(leaves)[t] == 1
  {
    if forall l :: l in leaves <==> l == t {
      AllTheSame(leaves, t);
    }
    if |leaves| == 1 && leaves[0] == t {
      assert leaves == [t];
    }
  }

  lemma {:induction false} DistinctOccurs(labels: seq<Type>, t: Type)
    requires Distinct(labels) && t in labels
    ensures multiset(labels)[t] == 1
  {
    assert labels == [labels[0]] + labels[1..];
    if labels[0] == t {
      assert t !in labels[1..];
    } else {
      DistinctOccurs(labels[1..], t);
    }
  }

  /** In a list without repeats the second half of the condition goes without saying. */
  lemma LeafOfDistinct(labels: seq<Type>, anc: AncestorMap, t: Type)
    requires Distinct(labels)
    ensures FindLeafType(labels, anc) == Some(t) <==> OnlyLeaf(labels, anc, t)
  {
    LeafIsTheOne(labels, anc, t);
    if OnlyLeaf(labels, anc, t) {
      assert t in Without(labels, [DEFAULT_KIND]);
      DistinctOccurs(labels, t);
    }
  }

  /** Outside `gone`, label `l` is there and is no other label's ancestor. */
  ghost predicate LeafOutside(labels: seq<Type>, anc: AncestorMap, gone: set<Type>, l: Type) {
    && l in labels && l !in gone
    && forall m :: m in labels && m !in gone && m != l && m in anc ==> l !in anc[m]
  }

  ghost predicate AloneOutside(labels: seq<Type>, anc: AncestorMap, gone: set<Type>, t: Type) {
    OnlyLeafOutside(labels, anc, gone, t) && multiset(labels)[t] == 1
  }

  ghost predicate OnlyLeafOutside(labels: seq<Type>, anc: AncestorMap, gone: set<Type>, t: Type) {
    forall l :: LeafOutside(labels, anc, gone, l) <==> l == t
  }

  lemma LeafAmongKept(labels: seq<Type>, anc: AncestorMap, specific: seq<Type>, gone: set<Type>, l: Type)
    requires forall m :: m in specific <==> m in labels && m !in gone
    ensures l in specific && !Covered(anc, specific, l) <==> LeafOutside(labels, anc, gone, l)
  {
    if m :| m in specific && m != l && m in anc && l in anc[m] {
      CoveredIn(anc, specific, l, m);
    }
    if Covered(anc, specific, l) {
      var i :| 0 <= i < |specific| && specific[i] != l && l in Ancestors(anc, specific[i]);
      assert specific[i] in specific;
    }
  }

  lemma SameLeaves(labels: seq<Type>, anc: AncestorMap, aside: seq<Type>, t: Type)
    ensures OnlyLeaf(Without(labels, aside), anc, t)
            <==> OnlyLeafOutside(labels, anc, {"Entity"} + (set l | l in aside), t)
  {
    var specific, gone := Without(Without(labels, aside), [DEFAULT_KIND]), {"Entity"} + (set l | l in aside);
    forall l
      ensures l in specific && !Covered(anc, specific, l) <==> LeafOutside(labels, anc, gone, l)
    {
      LeafAmongKept(labels, anc, specific, gone, l);
    }
  }

  lemma LeafIsAlone(labels: seq<Type>, anc: AncestorMap, aside: seq<Type>, t: Type)
    ensures FindLeafType(Without(labels, aside), anc) == Some(t)
            <==> AloneOutside(labels, anc, {"Entity"} + (set l | l in aside), t)
  {
    var gone := {"Entity"} + (set l | l in aside);
    LeafIsTheOne(Without(labels, aside), anc, t);
    SameLeaves(labels, anc, aside, t);
    WithoutOccurs(labels, aside, t);
    if OnlyLeafOutside(labels, anc, gone, t) {
      assert LeafOutside(labels, anc, gone, t);
    }
  }

  /** What is recovered, from any labels: the one label outside the root that is no other's ancestor; failing
    * that, unless the kind is the root, the one outside the root, the kind and the kind's ancestors. */
  lemma RecoveredIs(labels: seq<Type>, anc: AncestorMap, kind: Kind, t: Type)
    ensures var above := set l | kind in anc && l in anc[kind];
            FindLeafTypeWithKind(labels, anc, kind) == Some(t)
            <==> || AloneOutside(labels, anc, {"Entity"}, t)
                 || (&& (forall s :: !AloneOutside(labels, anc, {"Entity"}, s)) && kind != "Entity"
                     && AloneOutside(labels, anc, {"Entity", kind} + above, t))
  {
    var above, aside := set l | kind in anc && l in anc[kind], [kind] + Ancestors(anc, kind);
    forall s: Type
      ensures FindLeafType(labels, anc) == Some(s) <==> AloneOutside(labels, anc, {"Entity"}, s)
    {
      LeafIsAlone(labels, anc, [], s);
      WithoutNothing(labels);
      assert {"Entity"} + (set l: Type | l in []) == {"Entity"};
    }
    LeafIsAlone(labels, anc, aside, t);
    assert {"Entity"} + (set l | l in aside) == {"Entity", kind} + above;
  }

  lemma {:induction false} WithoutNothing(labels: seq<Type>)
    ensures Without(labels, []) == labels
  {
    if labels != [] {
      WithoutNothing(labels[1..]);
      assert labels == [labels[0]] + labels[1..];
    }
  }

  // Stamp, then recover.

  lemma StampedFacts(anc: AncestorMap, t: Type, kind: Kind)
    requires Hierarchy(anc) && t != DEFAULT_KIND
    ensures var labels := Stamped(anc, t, Some(kind));
            && Distinct(labels)
            && forall l :: l in labels <==> l == DEFAULT_KIND || l in Ancestors(anc, t) || l == t || l == kind
  {
    var plain := [DEFAULT_KIND] + Ancestors(anc, t) + [t];
    assert plain[0] == DEFAULT_KIND;
    assert forall l :: l in plain <==> l == DEFAULT_KIND || l in Ancestors(anc, t) || l == t;
  }

  /** Among the stamped labels, what is no other's ancestor: the type unless it is the kind's ancestor,
    * and the kind unless it is the type's. */
  lemma StampedLeaves(anc: AncestorMap, t: Type, kind: Kind, l: Type)
    requires Hierarchy(anc) && t != DEFAULT_KIND
    ensures var specific := Without(Stamped(anc, t, Some(kind)), [DEFAULT_KIND]);
            l in specific && !Covered(anc, specific, l)
            <==> (l == t && t !in Ancestors(anc, kind))
                 || (l == kind && kind != DEFAULT_KIND && kind !in Ancestors(anc, t))
  {
    StampedFacts(anc, t, kind);
    var specific := Without(Stamped(anc, t, Some(kind)), [DEFAULT_KIND]);
    assert forall x :: x in specific <==> x != DEFAULT_KIND && (x in Ancestors(anc, t) || x == t || x == kind);
    if l in Ancestors(anc, t) {
      CoveredIn(anc, specific, l, t);
    }
    if l == t && t in Ancestors(anc, kind) {
      assert kind in anc && kind != t;
      CoveredIn(anc, specific, t, kind);
    }
    if (l == t && t !in Ancestors(anc, kind)) || (l == kind && kind !in Ancestors(anc, t)) {
      NotCovered(anc, t, kind, specific, l);
    }
  }

  lemma CoveredIn(anc: AncestorMap, labels: seq<Type>, l: Type, other: Type)
    requires other in labels && other != l && l in Ancestors(anc, other)
    ensures Covered(anc, labels, l)
  {
  }

  lemma NotCovered(anc: AncestorMap, t: Type, kind: Kind, specific: seq<Type>, l: Type)
    requires Hierarchy(anc) && t != DEFAULT_KIND
    requires forall x :: x in specific <==> x != DEFAULT_KIND && (x in Ancestors(anc, t) || x == t || x == kind)
    requires (l == t && t !in Ancestors(anc, kind)) || (l == kind && kind !in Ancestors(anc, t))
    ensures !Covered(anc, specific, l)
  {
    forall x | x in specific && l in Ancestors(anc, x)
      ensures x == l
    {
      assert x in Ancestors(anc, t) ==> l in Ancestors(anc, t);
    }
    assert forall i :: 0 <= i < |specific| ==> specific[i] in specific;
  }

  /** Stamping a type and recovering it are inverse, for any kind, exactly when the type is not an ancestor
    * of the kind; when it is, the kind itself comes back. */
  lemma StampThenRecover(anc: AncestorMap, t: Type, kind: Kind)
    requires Hierarchy(anc) && t != DEFAULT_KIND
    ensures FindLeafTypeWithKind(Stamped(anc, t, Some(kind)), anc, kind)
         == Some(if t in Ancestors(anc, kind) then kind else t)
  {
    var labels := Stamped(anc, t, Some(kind));
    StampedFacts(anc, t, kind);
    forall l
      ensures var specific := Without(labels, [DEFAULT_KIND]);
              l in specific && !Covered(anc, specific, l)
              <==> (l == t && t !in Ancestors(anc, kind))
                   || (l == kind && kind != DEFAULT_KIND && kind !in Ancestors(anc, t))
    {
      StampedLeaves(anc, t, kind, l);
    }
    LeafOfDistinct(labels, anc, t);
    LeafOfDistinct(labels, anc, kind);
    if FindLeafType(labels, anc).None? {
      RestHasTheType(anc, t, kind);
    } else {
      LeafOfDistinct(labels, anc, FindLeafType(labels, anc).value);
    }
  }

  /** Where type and kind are independent leaves, setting the kind and its ancestors aside leaves the
    * type. */
  lemma RestHasTheType(anc: AncestorMap, t: Type, kind: Kind)
    requires Hierarchy(anc) && t != DEFAULT_KIND
    requires FindLeafType(Stamped(anc, t, Some(kind)), anc).None?
    ensures kind != DEFAULT_KIND && t !in Ancestors(anc, kind)
    ensures FindLeafType(Without(Stamped(anc, t, Some(kind)), [kind] + Ancestors(anc, kind)), anc) == Some(t)
  {
    var rest := Without(Stamped(anc, t, Some(kind)), [kind] + Ancestors(anc, kind));
    IndependentLeaves(anc, t, kind);
    RestIs(anc, t, kind, rest);
    LeafOfDistinct(rest, anc, t);
    var specific := Without(rest, [DEFAULT_KIND]);
    forall l
      ensures l in specific && !Covered(anc, specific, l) <==> l == t
    {
      OnlyTheType(anc, t, kind, specific, l);
    }
  }

  lemma RestIs(anc: AncestorMap, t: Type, kind: Kind, rest: seq<Type>)
    requires Hierarchy(anc) && t != DEFAULT_KIND
    requires rest == Without(Stamped(anc, t, Some(kind)), [kind] + Ancestors(anc, kind))
    ensures Distinct(rest)
    ensures forall x :: x in rest <==>
              && (x == DEFAULT_KIND || x in Ancestors(anc, t) || x == t || x == kind)
              && x != kind && x !in Ancestors(anc, kind)
  {
    StampedFacts(anc, t, kind);
    WithoutRepeats(Stamped(anc, t, Some(kind)), [kind] + Ancestors(anc, kind));
  }

  lemma IndependentLeaves(anc: AncestorMap, t: Type, kind: Kind)
    requires Hierarchy(anc) && t != DEFAULT_KIND
    requires FindLeafType(Stamped(anc, t, Some(kind)), anc).None?
    ensures kind != DEFAULT_KIND && kind != t && t !in Ancestors(anc, kind) && kind !in Ancestors(anc, t)
  {
    var labels := Stamped(anc, t, Some(kind));
    StampedFacts(anc, t, kind);
    forall l
      ensures var specific := Without(labels, [DEFAULT_KIND]);
              l in specific && !Covered(anc, specific, l)
              <==> (l == t && t !in Ancestors(anc, kind))
                   || (l == kind && kind != DEFAULT_KIND && kind !in Ancestors(anc, t))
    {
      StampedLeaves(anc, t, kind, l);
    }
    LeafOfDistinct(labels, anc, t);
    LeafOfDistinct(labels, anc, kind);
  }

  lemma OnlyTheType(anc: AncestorMap, t: Type, kind: Kind, specific: seq<Type>, l: Type)
    requires Hierarchy(anc) && t != DEFAULT_KIND && kind != t && t !in Ancestors(anc, kind)
    requires forall x :: x in specific <==>
               x != DEFAULT_KIND && x != kind && x !in Ancestors(anc, kind) && (x in Ancestors(anc, t) || x == t)
    ensures l in specific && !Covered(anc, specific, l) <==> l == t
  {
    if l in Ancestors(anc, t) && l in specific {
      CoveredIn(anc, specific, l, t);
    }
    if l == t {
      assert forall i :: 0 <= i < |specific| ==> specific[i] in specific;
      assert forall x :: x in Ancestors(anc, t) && t in Ancestors(anc, x) ==> t in Ancestors(anc, t);
    }
  }

  /** A type that is lost: stamped on an entity whose kind descends from it, it comes back as the kind. */
  lemma AncestorOfTheKindIsLost()
    ensures var anc: AncestorMap := map["Child" := ["Parent"], "Parent" := []];
            && Hierarchy(anc)
            && FindLeafTypeWithKind(Stamped(anc, "Parent", Some("Child")), anc, "Child") == Some("Child")
  {
    var anc: AncestorMap := map["Child" := ["Parent"], "Parent" := []];
    assert "Parent" in Ancestors(anc, "Child");
    StampThenRecover(anc, "Parent", "Child");
  }
}
