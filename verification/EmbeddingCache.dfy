/** The embedding cache: one text at a time, and a whole batch with at most one request to the
  * embedder for the texts it does not hold yet. */
module EmbeddingCache {
  import opened Common

  type Text = string
  type Vector = seq<real>

  /** The content address of a text under one model: model, dimension and text, hashed without
    * collisions. */
  datatype Key = Key(model: string, dim: int, text: Text)

  datatype Model = Model(name: string, dim: int)
  {
    function At(text: Text): Key {
      Key(name, dim, text)
    }
  }

  /** Vectors of different models, dimensions or texts are kept apart. */
  lemma KeysTellApart(m: Model, text: Text, m': Model, text': Text)
    ensures m.At(text) == m'.At(text') <==> m.name == m'.name && m.dim == m'.dim && text == text'
  {
  }

  type Entries = map<Key, Vector>

  /** The embedding service: what it answers to a request, and the requests it has had. */
  class Embedder {
    const answer: seq<Text> -> Option<seq<Vector>>
    var requests: seq<seq<Text>>

    constructor (answer: seq<Text> -> Option<seq<Vector>>)
      ensures this.answer == answer && requests == []
    {
      this.answer := answer;
      requests := [];
    }

    method Compute(texts: seq<Text>) returns (r: Option<seq<Vector>>)
      modifies this
      ensures r == answer(texts) && requests == old(requests) + [texts]
    {
      r := answer(texts);
      requests := requests + [texts];
    }
  }

  /** The texts the cache does not hold, each once, in order of first occurrence. */
  function Misses(entries: Entries, m: Model, texts: seq<Text>): seq<Text> {
    if texts == [] then []
    else
      var front, last := Misses(entries, m, texts[..|texts| - 1]), texts[|texts| - 1];
      if m.At(last) in entries || last in front then front else front + [last]
  }

  function FirstIndex(texts: seq<Text>, t: Text): (i: nat)
    requires t in texts
    ensures i < |texts| && texts[i] == t && forall j :: 0 <= j < i ==> texts[j] != t
  {
    if texts[0] == t then 0 else 1 + FirstIndex(texts[1..], t)
  }

  lemma {:induction false} MissesAreUncached(entries: Entries, m: Model, texts: seq<Text>)
    ensures var misses := Misses(entries, m, texts);
            && (forall t :: t in misses <==> t in texts && m.At(t) !in entries)
            && (forall i, j :: 0 <= i < j < |misses| ==> misses[i] != misses[j])
  {
    if texts != [] {
      var front, last := texts[..|texts| - 1], texts[|texts| - 1];
      assert texts == front + [last];
      MissesAreUncached(entries, m, front);
    }
  }

  ghost predicate InFirstOrder(texts: seq<Text>, some: seq<Text>) {
    && (forall t :: t in some ==> t in texts)
    && (forall i, j :: 0 <= i < j < |some| ==> FirstIndex(texts, some[i]) < FirstIndex(texts, some[j]))
  }

  lemma OrderGrows(front: seq<Text>, last: Text, some: seq<Text>)
    requires InFirstOrder(front, some)
    ensures InFirstOrder(front + [last], some)
    ensures last !in front ==> InFirstOrder(front + [last], some + [last])
  {
    FrontIndices(front, last);
  }

  lemma {:induction false} MissesKeepOrder(entries: Entries, m: Model, texts: seq<Text>)
    ensures InFirstOrder(texts, Misses(entries, m, texts))
  {
    if texts != [] {
      var front, last := texts[..|texts| - 1], texts[|texts| - 1];
      MissesKeepOrder(entries, m, front);
      MissesAreUncached(entries, m, front);
      OrderGrows(front, last, Misses(entries, m, front));
      assert texts == front + [last];
    }
  }

  lemma FrontIndices(front: seq<Text>, last: Text)
    ensures forall t :: t in front ==> t in front + [last] && FirstIndex(front + [last], t) == FirstIndex(front, t)
    ensures last in front + [last] && (last !in front ==> FirstIndex(front + [last], last) == |front|)
  {
    var texts := front + [last];
    forall t | t in front
      ensures t in texts && FirstIndex(texts, t) == FirstIndex(front, t)
    {
      FirstIndexIsUnique(texts, t, FirstIndex(front, t));
    }
    assert texts[|front|] == last;
    if last !in front {
      FirstIndexIsUnique(texts, last, |front|);
    }
  }

  /** The misses are exactly the uncached texts, without repetition, in first-occurrence order. */
  lemma MissesAreTheUncached(entries: Entries, m: Model, texts: seq<Text>)
    ensures var misses := Misses(entries, m, texts);
            && (forall t :: t in misses <==> t in texts && m.At(t) !in entries)
            && (forall i, j :: 0 <= i < j < |misses| ==> misses[i] != misses[j])
            && InFirstOrder(texts, misses)
  {
    MissesAreUncached(entries, m, texts);
    MissesKeepOrder(entries, m, texts);
  }

  lemma FirstIndexIsUnique(texts: seq<Text>, t: Text, i: nat)
    requires i < |texts| && texts[i] == t && forall j :: 0 <= j < i ==> texts[j] != t
    ensures FirstIndex(texts, t) == i
  {
    var k := FirstIndex(texts, t);
    assert k <= i ==> texts[k] == t;
  }

  /** The cache after the computed vectors are stored. */
  function Stored(entries: Entries, m: Model, texts: seq<Text>, vectors: seq<Vector>): Entries
    requires |texts| == |vectors|
  {
    if texts == [] then entries
    else
      Stored(entries, m, texts[..|texts| - 1], vectors[..|texts| - 1])
      [m.At(texts[|texts| - 1]) := vectors[|texts| - 1]]
  }

  function KeysOf(m: Model, texts: seq<Text>): set<Key> {
    set t | t in texts :: m.At(t)
  }

  ghost predicate Holds(entries: Entries, m: Model, texts: seq<Text>, vectors: seq<Vector>, after: Entries)
    requires |texts| == |vectors|
  {
    && after.Keys == entries.Keys + KeysOf(m, texts)
    && (forall i :: 0 <= i < |texts| ==> m.At(texts[i]) in after && after[m.At(texts[i])] == vectors[i])
    && (forall k :: k in entries && k !in KeysOf(m, texts) ==> after[k] == entries[k])
  }

  lemma HoldsOneMore(entries: Entries, m: Model, front: seq<Text>, rest: seq<Vector>, after: Entries,
                     last: Text, v: Vector)
    requires |front| == |rest| && Holds(entries, m, front, rest, after) && last !in front
    ensures Holds(entries, m, front + [last], rest + [v], after[m.At(last) := v])
  {
    assert KeysOf(m, front + [last]) == KeysOf(m, front) + {m.At(last)};
    forall i | 0 <= i < |front|
      ensures m.At(front[i]) != m.At(last)
    {
      assert front[i] in front;
    }
  }

  lemma {:induction false} StoredHolds(entries: Entries, m: Model, texts: seq<Text>, vectors: seq<Vector>)
    requires |texts| == |vectors| && forall i, j :: 0 <= i < j < |texts| ==> texts[i] != texts[j]
    ensures Holds(entries, m, texts, vectors, Stored(entries, m, texts, vectors))
  {
    if texts == [] {
      assert KeysOf(m, texts) == {};
    } else {
      var n := |texts| - 1;
      var front, rest := texts[..n], vectors[..n];
      StoredHolds(entries, m, front, rest);
      assert texts == front + [texts[n]] && vectors == rest + [vectors[n]];
      HoldsOneMore(entries, m, front, rest, Stored(entries, m, front, rest), texts[n], vectors[n]);
    }
  }

  /** Whether a batch request succeeds. */
  predicate Answered(answer: seq<Text> -> Option<seq<Vector>>, misses: seq<Text>) {
    misses == [] || (answer(misses).Some? && |answer(misses).value| == |misses|)
  }

  function Computed(answer: seq<Text> -> Option<seq<Vector>>, misses: seq<Text>): seq<Vector>
    requires Answered(answer, misses)
  {
    if misses == [] then [] else answer(misses).value
  }

  class Cache {
    var entries: Entries

    constructor ()
      ensures entries == map[]
    {
      entries := map[];
    }

    /** `get_or_compute`. */
    method GetOrCompute(e: Embedder, m: Model, text: Text) returns (r: Option<Vector>)
      modifies this, e
      ensures m.At(text) in old(entries) ==>
                r == Some(old(entries)[m.At(text)]) && entries == old(entries) && e.requests == old(e.requests)
      ensures m.At(text) !in old(entries) ==>
                && e.requests == old(e.requests) + [[text]]
                && (if Answered(e.answer, [text]) then
                      r == Some(e.answer([text]).value[0]) && entries == old(entries)[m.At(text) := r.value]
                    else r.None? && entries == old(entries))
    {
      var key := m.At(text);
      if key in entries {
        return Some(entries[key]);
      }
      var computed := e.Compute([text]);
      if computed.None? || |computed.value| != 1 {
        return None;
      }
      entries := entries[key := computed.value[0]];
      r := Some(computed.value[0]);
    }

    /** `get_or_compute_batch`: at most one request, for exactly the uncached texts; on failure the
      * cache is as it was. */
    method GetOrComputeBatch(e: Embedder, m: Model, texts: seq<Text>) returns (r: Option<seq<Vector>>)
      modifies this, e
      ensures var misses := Misses(old(entries), m, texts);
              && e.requests == old(e.requests) + (if misses == [] then [] else [misses])
              && (r.Some? <==> Answered(e.answer, misses))
              && entries == (if r.Some? then Stored(old(entries), m, misses, Computed(e.answer, misses))
                             else old(entries))
      ensures r.Some? ==> && |r.value| == |texts|
                          && forall i :: 0 <= i < |texts| ==>
                               m.At(texts[i]) in entries && r.value[i] == entries[m.At(texts[i])]
    {
      if texts == [] {
        return Some([]);
      }
      ghost var before := entries;
      MissesAreTheUncached(entries, m, texts);
      var found := Lookup(m, texts);
      var missTexts, missPos := ListMisses(m, texts, found);
      var computed: seq<Vector> := [];
      if missTexts != [] {
        var answer := e.Compute(missTexts);
        if answer.None? || |answer.value| != |missTexts| {
          return None;
        }
        computed := answer.value;
      }
      StoredHolds(before, m, missTexts, computed);
      entries := Stored(entries, m, missTexts, computed);
      var vectors := Assemble(m, texts, found, missTexts, missPos, computed);
      r := Some(vectors);
    }

    /** Every cached text's vector, under the lock. */
    method Lookup(m: Model, texts: seq<Text>) returns (found: seq<Option<Vector>>)
      ensures |found| == |texts|
      ensures forall i :: 0 <= i < |texts| ==>
                found[i] == if m.At(texts[i]) in entries then Some(entries[m.At(texts[i])]) else None
    {
      found := [];
      for i := 0 to |texts|
        invariant |found| == i
        invariant forall j :: 0 <= j < i ==>
                    found[j] == if m.At(texts[j]) in entries then Some(entries[m.At(texts[j])]) else None
      {
        var key := m.At(texts[i]);
        found := found + [if key in entries then Some(entries[key]) else None];
      }
    }

    /** The distinct misses in first-occurrence order, and where each one stands. */
    method ListMisses(m: Model, texts: seq<Text>, found: seq<Option<Vector>>)
      returns (missTexts: seq<Text>, missPos: map<Key, nat>)
      requires |found| == |texts|
      requires forall i :: 0 <= i < |texts| ==> (found[i].Some? <==> m.At(texts[i]) in entries)
      ensures missTexts == Misses(entries, m, texts)
      ensures Positions(m, missTexts, missPos)
    {
      missTexts, missPos := [], map[];
      for i := 0 to |texts|
        invariant missTexts == Misses(entries, m, texts[..i])
        invariant Positions(m, missTexts, missPos)
      {
        assert texts[..i + 1][..i] == texts[..i];
        if found[i].Some? {
          continue;
        }
        var key := m.At(texts[i]);
        if key !in missPos {
          missTexts := missTexts + [texts[i]];
          missPos := missPos[key := |missTexts| - 1];
        }
      }
      assert texts[..|texts|] == texts;
    }
  }

  ghost predicate Positions(m: Model, missTexts: seq<Text>, missPos: map<Key, nat>) {
    && (forall t :: t in missTexts ==> m.At(t) in missPos)
    && (forall k :: k in missPos ==> missPos[k] < |missTexts| && k == m.At(missTexts[missPos[k]]))
  }

  /** The answer, slot by slot: what was cached, or the computed vector of its text. */
  method Assemble(m: Model, texts: seq<Text>, found: seq<Option<Vector>>, missTexts: seq<Text>,
                  missPos: map<Key, nat>, computed: seq<Vector>) returns (vectors: seq<Vector>)
    requires |found| == |texts| && |computed| == |missTexts| && Positions(m, missTexts, missPos)
    requires forall i :: 0 <= i < |texts| ==> found[i].Some? || texts[i] in missTexts
    ensures |vectors| == |texts|
    ensures forall i :: 0 <= i < |texts| && found[i].Some? ==> vectors[i] == found[i].value
    ensures forall i :: 0 <= i < |texts| && found[i].None? ==>
              exists j :: 0 <= j < |missTexts| && missTexts[j] == texts[i] && vectors[i] == computed[j]
  {
    vectors := [];
    for i := 0 to |texts|
      invariant |vectors| == i
      invariant forall k :: 0 <= k < i && found[k].Some? ==> vectors[k] == found[k].value
      invariant forall k :: 0 <= k < i && found[k].None? ==>
                  exists j :: 0 <= j < |missTexts| && missTexts[j] == texts[k] && vectors[k] == computed[j]
    {
      if found[i].Some? {
        vectors := vectors + [found[i].value];
      } else {
        var j := missPos[m.At(texts[i])];
        assert missTexts[j] == texts[i];
        vectors := vectors + [computed[j]];
      }
    }
  }

  // What it means.

  function Map(embed: Text -> Vector, texts: seq<Text>): seq<Vector> {
    seq(|texts|, i requires 0 <= i < |texts| => embed(texts[i]))
  }

  /** The service answers every request with the embedding of each text, in order. */
  ghost predicate Honest(answer: seq<Text> -> Option<seq<Vector>>, embed: Text -> Vector) {
    forall texts :: answer(texts) == Some(Map(embed, texts))
  }

  /** Every vector cached under the model is its text's embedding. */
  ghost predicate Sound(entries: Entries, m: Model, embed: Text -> Vector) {
    forall t :: m.At(t) in entries ==> entries[m.At(t)] == embed(t)
  }

  /** What a batch leaves: the old entries, and the embedding of every text it was asked for. */
  ghost predicate Filled(entries: Entries, m: Model, embed: Text -> Vector, texts: seq<Text>, entries': Entries) {
    && entries'.Keys == entries.Keys + KeysOf(m, texts)
    && (forall k :: k in entries ==> entries'[k] == entries[k])
    && (forall t :: t in texts ==> m.At(t) in entries' && entries'[m.At(t)] == embed(t))
  }

  /** With an honest service a batch always succeeds, keeps the cache sound and caches every text, so
    * that its answer is the embedder mapped over the texts. */
  lemma BatchIsTheMap(answer: seq<Text> -> Option<seq<Vector>>, embed: Text -> Vector, entries: Entries, m: Model,
                      texts: seq<Text>)
    requires Honest(answer, embed) && Sound(entries, m, embed)
    ensures var misses := Misses(entries, m, texts);
            && Answered(answer, misses)
            && var entries' := Stored(entries, m, misses, Computed(answer, misses));
               Filled(entries, m, embed, texts, entries') && Sound(entries', m, embed)
  {
    var misses := Misses(entries, m, texts);
    MissesAreTheUncached(entries, m, texts);
    assert answer(misses) == Some(Map(embed, misses));
    var computed := Computed(answer, misses);
    StoredHolds(entries, m, misses, computed);
    var entries' := Stored(entries, m, misses, computed);
    forall t | t in misses
      ensures entries'[m.At(t)] == embed(t)
    {
      var i :| 0 <= i < |misses| && misses[i] == t;
      assert entries'[m.At(misses[i])] == computed[i] == embed(misses[i]);
    }
    forall k | k in entries
      ensures k !in KeysOf(m, misses)
    {
    }
    forall t | m.At(t) in entries'
      ensures entries'[m.At(t)] == embed(t)
    {
      assert m.At(t) in entries || t in misses;
    }
    assert KeysOf(m, misses) <= KeysOf(m, texts) <= entries.Keys + KeysOf(m, misses);
  }

  /** The same texts one at a time. */
  function OneByOne(entries: Entries, m: Model, embed: Text -> Vector, texts: seq<Text>): Entries {
    if texts == [] then entries
    else
      var before, key := OneByOne(entries, m, embed, texts[..|texts| - 1]), m.At(texts[|texts| - 1]);
      if key in before then before else before[key := embed(texts[|texts| - 1])]
  }

  lemma {:induction false} OneByOneFills(entries: Entries, m: Model, embed: Text -> Vector, texts: seq<Text>)
    requires Sound(entries, m, embed)
    ensures Filled(entries, m, embed, texts, OneByOne(entries, m, embed, texts))
  {
    if texts != [] {
      var front, last := texts[..|texts| - 1], texts[|texts| - 1];
      OneByOneFills(entries, m, embed, front);
      assert texts == front + [last];
      assert KeysOf(m, texts) == KeysOf(m, front) + {m.At(last)};
    }
  }

  /** The batch leaves exactly the cache that the texts one at a time would have left. */
  lemma BatchIsOneByOne(answer: seq<Text> -> Option<seq<Vector>>, embed: Text -> Vector, entries: Entries, m: Model,
                        texts: seq<Text>)
    requires Honest(answer, embed) && Sound(entries, m, embed)
    ensures var misses := Misses(entries, m, texts);
            && Answered(answer, misses)
            && Stored(entries, m, misses, Computed(answer, misses)) == OneByOne(entries, m, embed, texts)
  {
    BatchIsTheMap(answer, embed, entries, m, texts);
    OneByOneFills(entries, m, embed, texts);
    var misses := Misses(entries, m, texts);
    var batch, single := Stored(entries, m, misses, Computed(answer, misses)), OneByOne(entries, m, embed, texts);
    forall k | k in batch
      ensures batch[k] == single[k]
    {
      if k !in entries {
        var t :| t in texts && k == m.At(t);
        assert batch[m.At(t)] == embed(t) == single[m.At(t)];
      }
    }
  }
}
