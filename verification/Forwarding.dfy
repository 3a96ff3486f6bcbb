/** The `merged_into` forwarding chain left behind by merges: the cycle-guarded walk on an
  * arbitrary forwarding graph, and the forest that merges keep it in. */
module Forwarding {
  import opened Common
  import opened PropertyGraph

  /** One legal forward step inside `group`. */
  predicate Steps(ents: Entities, group: GroupId, u: Uuid, v: Uuid) {
    && u in ents
    && ents[u].mergedInto == Some(v)
    && v in ents
    && ents[v].group == group
  }

  /** A chain of forward steps whose interior rows are all tombstones. */
  ghost predicate Chain(ents: Entities, group: GroupId, p: seq<Uuid>) {
    && |p| >= 2
    && (forall i :: 0 <= i < |p| - 1 ==> Steps(ents, group, p[i], p[i + 1]))
    && (forall i :: 0 < i < |p| - 1 ==> p[i] in ents && ents[p[i]].merged)
  }

  ghost predicate ChainFromTo(ents: Entities, group: GroupId, p: seq<Uuid>, u: Uuid, c: Uuid) {
    Chain(ents, group, p) && p[0] == u && p[|p| - 1] == c
  }

  /** The in-group chain from `u` reaches the live row `c`. */
  ghost predicate Reaches(ents: Entities, group: GroupId, u: Uuid, c: Uuid) {
    && c in ents && !ents[c].merged && c != u
    && exists p :: ChainFromTo(ents, group, p, u, c)
  }

  function WalkFrom(ents: Entities, group: GroupId, current: Uuid, visited: set<Uuid>): Option<Uuid>
    requires current in ents
    decreases ents.Keys - visited
  {
    if ents[current].mergedInto.None? then None
    else
      var target := ents[current].mergedInto.value;
      if target in visited || target !in ents || ents[target].group != group then None
      else if !ents[target].merged then Some(target)
      else WalkFrom(ents, group, target, visited + {target})
  }

  function Walk(ents: Entities, group: GroupId, start: Uuid): Option<Uuid>
    requires start in ents
  {
    WalkFrom(ents, group, start, {start})
  }

  /** `follow_merged_into_chain`: the loop with its visited set. */
  method FollowMergedIntoChain(ents: Entities, group: GroupId, start: Uuid) returns (r: Option<Uuid>)
    requires start in ents
    ensures r == Walk(ents, group, start)
    ensures r.Some? ==> Reaches(ents, group, start, r.value)
    ensures r.None? ==> forall c: Uuid :: !Reaches(ents, group, start, c)
  {
    var visited: set<Uuid> := {start};
    var current := start;
    WalkIsReach(ents, group, start);
    while true
      invariant current in ents
      invariant WalkFrom(ents, group, current, visited) == Walk(ents, group, start)
      decreases ents.Keys - visited
    {
      if ents[current].mergedInto.None? {
        return None;
      }
      var target := ents[current].mergedInto.value;
      if target in visited {
        return None;
      }
      visited := visited + {target};
      if target !in ents || ents[target].group != group {
        return None;
      }
      if !ents[target].merged {
        return Some(target);
      }
      current := target;
    }
  }

  /** A set that no legal step leaves holds every chain that starts in it. */
  lemma {:induction false} ChainStaysInside(
      ents: Entities, group: GroupId, inside: set<Uuid>, p: seq<Uuid>, n: nat)
    requires Chain(ents, group, p) && p[0] in inside && n < |p|
    requires forall i :: 0 <= i < |p| - 1 && p[i] in inside && Steps(ents, group, p[i], p[i + 1])
               ==> p[i + 1] in inside
    ensures p[n] in inside
  {
    if n > 0 {
      ChainStaysInside(ents, group, inside, p, n - 1);
      assert Steps(ents, group, p[n - 1], p[n]);
    }
  }

  /** The walk's state: `trail` is the chain walked so far, `visited` its rows. */
  ghost predicate Trail(ents: Entities, group: GroupId, trail: seq<Uuid>, visited: set<Uuid>) {
    && |trail| >= 1
    && (forall u <- trail :: u in ents)
    && (forall u :: u in visited <==> u in trail)
    && (forall i :: 0 <= i < |trail| - 1 ==> Steps(ents, group, trail[i], trail[i + 1]))
    && (forall i :: 0 < i < |trail| ==> ents[trail[i]].merged)
  }

  lemma {:induction false} WalkFollowsTrail(
      ents: Entities, group: GroupId, trail: seq<Uuid>, visited: set<Uuid>)
    requires Trail(ents, group, trail, visited)
    ensures var r := WalkFrom(ents, group, trail[|trail| - 1], visited);
            && (r.Some? ==> Reaches(ents, group, trail[0], r.value))
            && (r.None? ==> forall c: Uuid :: !Reaches(ents, group, trail[0], c))
    decreases ents.Keys - visited
  {
    var current := trail[|trail| - 1];
    var next := ents[current].mergedInto;
    if next.Some? && next.value !in visited && next.value in ents && ents[next.value].group == group {
      var longer := trail + [next.value];
      if ents[next.value].merged {
        WalkFollowsTrail(ents, group, longer, visited + {next.value});
        assert longer[0] == trail[0] && longer[|longer| - 1] == next.value;
      } else {
        assert ChainFromTo(ents, group, longer, trail[0], next.value);
      }
    } else {
      forall c | Reaches(ents, group, trail[0], c)
        ensures false
      {
        var p :| ChainFromTo(ents, group, p, trail[0], c);
        ChainTrapped(ents, group, trail, visited, p);
      }
    }
  }

  /** Where the walk gives up, every chain from its start is confined to what it visited. */
  lemma ChainTrapped(
      ents: Entities, group: GroupId, trail: seq<Uuid>, visited: set<Uuid>, p: seq<Uuid>)
    requires Trail(ents, group, trail, visited)
    requires var next := ents[trail[|trail| - 1]].mergedInto;
             next.Some? && next.value in ents && ents[next.value].group == group ==> next.value in visited
    requires Chain(ents, group, p) && p[0] == trail[0]
    ensures p[|p| - 1] in visited
  {
    forall i | 0 <= i < |p| - 1 && p[i] in visited
      ensures p[i + 1] in visited
    {
      assert Steps(ents, group, p[i], p[i + 1]);
      var j :| 0 <= j < |trail| && trail[j] == p[i];
      if j < |trail| - 1 {
        assert Steps(ents, group, trail[j], trail[j + 1]);
      }
    }
    ChainStaysInside(ents, group, visited, p, |p| - 1);
  }

  /** On any forwarding graph - cycles, dangling targets, targets in other groups - the walk
    * answers a row exactly when the in-group chain reaches a live one, and then that one. */
  lemma WalkIsReach(ents: Entities, group: GroupId, start: Uuid)
    requires start in ents
    ensures forall c: Uuid :: Walk(ents, group, start) == Some(c) <==> Reaches(ents, group, start, c)
    ensures Walk(ents, group, start).None? ==> forall c: Uuid :: !Reaches(ents, group, start, c)
  {
    WalkFollowsTrail(ents, group, [start], {start});
    forall c, d | Reaches(ents, group, start, c) && Reaches(ents, group, start, d)
      ensures c == d
    {
      var p :| ChainFromTo(ents, group, p, start, c);
      var q :| ChainFromTo(ents, group, q, start, d);
      if |p| <= |q| {
        ChainsAgree(ents, group, p, q);
      } else {
        ChainsAgree(ents, group, q, p);
      }
    }
  }

  /** Chains are deterministic: the shorter of two chains to live rows is not a proper prefix. */
  lemma ChainsAgree(ents: Entities, group: GroupId, p: seq<Uuid>, q: seq<Uuid>)
    requires Chain(ents, group, p) && Chain(ents, group, q) && p[0] == q[0] && |p| <= |q|
    requires p[|p| - 1] in ents && !ents[p[|p| - 1]].merged
    ensures p == q
  {
    var i := 0;
    while i < |p| - 1
      invariant 0 <= i <= |p| - 1
      invariant forall j :: 0 <= j <= i ==> p[j] == q[j]
    {
      assert Steps(ents, group, p[i], p[i + 1]) && Steps(ents, group, q[i], q[i + 1]);
      i := i + 1;
    }
  }

  // The forest.

  /** Every tombstone forwards inside its own group and kind, and its chain ends at a live row. */
  ghost predicate Forest(ents: Entities) {
    forall u <- ents :: ents[u].merged ==> Forwards(ents, u)
  }

  ghost predicate Forwards(ents: Entities, u: Uuid)
    requires u in ents
  {
    && (exists v :: Steps(ents, ents[u].group, u, v) && ents[v].Kind() == ents[u].Kind())
    && (exists c :: Reaches(ents, ents[u].group, u, c))
  }

  ghost predicate NoTombstones(ents: Entities) {
    forall u <- ents :: !ents[u].merged
  }

  /** Tombstoning `alias` into `canonical`. */
  function Tombstone(ents: Entities, alias: Uuid, canonical: Uuid): Entities
    requires alias in ents
  {
    ents[alias := ents[alias].(merged := true, mergedInto := Some(canonical))]
  }

  ghost predicate MayMerge(ents: Entities, alias: Uuid, canonical: Uuid) {
    && alias in ents && canonical in ents && alias != canonical
    && !ents[alias].merged && !ents[canonical].merged
    && ents[alias].group == ents[canonical].group
    && ents[alias].Kind() == ents[canonical].Kind()
  }

  /** Merging extends the chains that ended at the alias by one step and moves no other. */
  lemma TombstoneRedirects(ents: Entities, alias: Uuid, canonical: Uuid, u: Uuid, c: Uuid)
    requires MayMerge(ents, alias, canonical)
    requires u in ents && ents[u].merged && Reaches(ents, ents[u].group, u, c)
    ensures Reaches(Tombstone(ents, alias, canonical), ents[u].group, u,
                    if c == alias then canonical else c)
  {
    var ents' := Tombstone(ents, alias, canonical);
    var group := ents[u].group;
    var p :| ChainFromTo(ents, group, p, u, c);
    forall i | 0 <= i < |p| - 1
      ensures Steps(ents', group, p[i], p[i + 1])
    {
      assert Steps(ents, group, p[i], p[i + 1]);
      assert ents[p[i]].merged;
    }
    assert ChainFromTo(ents', group, p, u, c);
    if c == alias {
      assert Steps(ents, group, p[|p| - 2], p[|p| - 1]);
      var q := p + [canonical];
      assert forall i :: 0 <= i < |p| ==> q[i] == p[i];
      assert Steps(ents', group, alias, canonical);
      assert ChainFromTo(ents', group, q, u, canonical);
    }
  }

  lemma TombstoneKeepsForest(ents: Entities, alias: Uuid, canonical: Uuid)
    requires Forest(ents) && MayMerge(ents, alias, canonical)
    ensures Forest(Tombstone(ents, alias, canonical))
  {
    var ents' := Tombstone(ents, alias, canonical);
    forall u <- ents' | ents'[u].merged
      ensures Forwards(ents', u)
    {
      var group := ents[u].group;
      if u == alias {
        assert Steps(ents', group, alias, canonical);
        assert ChainFromTo(ents', group, [alias, canonical], alias, canonical);
        assert Reaches(ents', group, alias, canonical);
      } else {
        assert Forwards(ents, u);
        var v :| Steps(ents, group, u, v) && ents[v].Kind() == ents[u].Kind();
        assert Steps(ents', group, u, v);
        var c :| Reaches(ents, group, u, c);
        TombstoneRedirects(ents, alias, canonical, u, c);
      }
    }
  }

  /** No tombstone column, group or kind of an old row changes, and new rows are live. */
  ghost predicate Quiet(ents: Entities, ents': Entities) {
    && (forall u <- ents ::
          && u in ents'
          && ents'[u].merged == ents[u].merged
          && ents'[u].mergedInto == ents[u].mergedInto
          && ents'[u].group == ents[u].group
          && ents'[u].Kind() == ents[u].Kind())
    && (forall u <- ents' :: u !in ents ==> !ents'[u].merged)
  }

  lemma QuietKeepsReach(ents: Entities, ents': Entities, group: GroupId, u: Uuid, c: Uuid)
    requires Quiet(ents, ents') && Reaches(ents, group, u, c)
    ensures Reaches(ents', group, u, c)
  {
    var p :| ChainFromTo(ents, group, p, u, c);
    forall i | 0 <= i < |p| - 1
      ensures Steps(ents', group, p[i], p[i + 1])
    {
      assert Steps(ents, group, p[i], p[i + 1]);
    }
    assert ChainFromTo(ents', group, p, u, c);
  }

  lemma QuietKeepsForest(ents: Entities, ents': Entities)
    requires Quiet(ents, ents') && Forest(ents)
    ensures Forest(ents')
  {
    forall u <- ents' | ents'[u].merged
      ensures Forwards(ents', u)
    {
      var group := ents[u].group;
      assert Forwards(ents, u);
      var v :| Steps(ents, group, u, v) && ents[v].Kind() == ents[u].Kind();
      assert Steps(ents', group, u, v);
      var c :| Reaches(ents, group, u, c);
      QuietKeepsReach(ents, ents', group, u, c);
    }
  }

  /** In a forest the walk from a tombstone never meets a dead end, and what it returns is a live
    * row of the tombstone's own group and kind. */
  lemma ForestHasNoDeadEnds(ents: Entities, u: Uuid)
    requires Forest(ents) && u in ents && ents[u].merged
    ensures var r := Walk(ents, ents[u].group, u);
            && r.Some?
            && r.value in ents
            && !ents[r.value].merged
            && ents[r.value].group == ents[u].group
            && ents[r.value].Kind() == ents[u].Kind()
  {
    var group := ents[u].group;
    assert Forwards(ents, u);
    WalkIsReach(ents, group, u);
    var c := Walk(ents, group, u).value;
    var p :| ChainFromTo(ents, group, p, u, c);
    ChainKeepsKind(ents, u, p, |p| - 1);
    assert Steps(ents, group, p[|p| - 2], p[|p| - 1]);
  }

  lemma {:induction false} ChainKeepsKind(ents: Entities, u: Uuid, p: seq<Uuid>, n: nat)
    requires Forest(ents) && u in ents && ents[u].merged
    requires Chain(ents, ents[u].group, p) && p[0] == u && n < |p|
    ensures p[n] in ents && ents[p[n]].Kind() == ents[u].Kind() && ents[p[n]].group == ents[u].group
  {
    if n > 0 {
      ChainKeepsKind(ents, u, p, n - 1);
      assert Steps(ents, ents[u].group, p[n - 1], p[n]);
      assert Forwards(ents, p[n - 1]);
    }
  }
}
