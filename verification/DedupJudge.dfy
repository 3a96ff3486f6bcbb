/** Judging duplicate candidates: attributing the entries of a judge's reply to the pairs it was asked
  * about, and the batched adapter with its bounded cache of definite verdicts. */
module DedupJudge {
  import opened Common

  datatype Verdict = Duplicate | Distinct | Unknown

  /** An entry of the reply: its id if that is a non-negative integer, its `duplicate` if boolean. */
  datatype Entry = Entry(id: Option<nat>, duplicate: Option<bool>)

  // One reply.

  /** Entry `k` is the only one with id `i`. */
  predicate Only(items: seq<Entry>, i: nat, k: nat) {
    && k < |items| && items[k].id == Some(i)
    && forall j :: 0 <= j < |items| && j != k ==> items[j].id != Some(i)
  }

  function VerdictOf(duplicate: Option<bool>): Verdict {
    match duplicate
    case Some(true) => Duplicate
    case Some(false) => Distinct
    case None => Unknown
  }

  /** How many entries have id `i`. */
  function CountId(items: seq<Entry>, i: nat): nat {
    if items == [] then 0
    else CountId(items[..|items| - 1], i) + if items[|items| - 1].id == Some(i) then 1 else 0
  }

  /** What the last entry with id `i` says. */
  function LastSaid(items: seq<Entry>, i: nat): Option<bool> {
    if items == [] then None
    else if items[|items| - 1].id == Some(i) then items[|items| - 1].duplicate
    else LastSaid(items[..|items| - 1], i)
  }

  lemma {:induction false} NoneCounted(items: seq<Entry>, i: nat)
    ensures CountId(items, i) == 0 <==> forall k :: 0 <= k < |items| ==> items[k].id != Some(i)
  {
    if items != [] {
      NoneCounted(items[..|items| - 1], i);
    }
  }

  lemma {:induction false} OneCounted(items: seq<Entry>, i: nat)
    ensures CountId(items, i) == 1 <==> exists k: nat :: Only(items, i, k)
    ensures forall k: nat :: Only(items, i, k) ==> LastSaid(items, i) == items[k].duplicate
  {
    if items != [] {
      var front, last := items[..|items| - 1], items[|items| - 1];
      OneCounted(front, i);
      NoneCounted(front, i);
      if last.id == Some(i) {
        if CountId(front, i) == 0 {
          assert Only(items, i, |items| - 1);
        }
      } else {
        forall k: nat
          ensures Only(items, i, k) <==> Only(front, i, k)
        {
        }
      }
    }
  }

  lemma OneMore(items: seq<Entry>, k: nat)
    requires k < |items|
    ensures forall i: nat ::
              CountId(items[..k + 1], i) == CountId(items[..k], i) + if items[k].id == Some(i) then 1 else 0
    ensures forall i: nat :: LastSaid(items[..k + 1], i)
                          == if items[k].id == Some(i) then items[k].duplicate else LastSaid(items[..k], i)
  {
    assert items[..k + 1][..k] == items[..k];
  }

  /** `parse_verdicts` on the entries of the reply; `None` when there is no list of them. Pair `i` gets a
    * definite verdict exactly when one entry alone has id `i` and its `duplicate` is a boolean. */
  method ParseVerdicts(reply: Option<seq<Entry>>, n: nat) returns (out: seq<Verdict>)
    ensures |out| == n
    ensures reply.None? ==> forall i :: 0 <= i < n ==> out[i] == Unknown
    ensures reply.Some? ==> forall i :: 0 <= i < n ==> Attributed(reply.value, i, out[i])
  {
    var result := new Verdict[n](_ => Unknown);
    if reply.None? {
      return result[..];
    }
    var items := reply.value;
    var seen := new nat[n](_ => 0);
    var said := new Option<bool>[n](_ => None);
    assert items[..0] == [];
    for k := 0 to |items|
      invariant forall i :: 0 <= i < n ==> seen[i] == CountId(items[..k], i)
      invariant forall i :: 0 <= i < n ==> said[i] == LastSaid(items[..k], i)
      invariant forall i :: 0 <= i < n ==> result[i] == Unknown
    {
      OneMore(items, k);
      if items[k].id.None? || items[k].id.value >= n {
        continue;
      }
      var id := items[k].id.value;
      seen[id] := seen[id] + 1;
      said[id] := items[k].duplicate;
    }
    assert items[..|items|] == items;
    for i := 0 to n
      invariant forall j :: 0 <= j < i ==> Attributed(items, j, result[j])
      invariant forall j :: i <= j < n ==> result[j] == Unknown
      invariant forall j :: 0 <= j < n ==> seen[j] == CountId(items, j) && said[j] == LastSaid(items, j)
    {
      OneCounted(items, i);
      if seen[i] == 1 {
        result[i] := VerdictOf(said[i]);
      }
    }
    out := result[..];
  }

  ghost predicate Attributed(items: seq<Entry>, i: nat, v: Verdict) {
    && (v == Duplicate <==> exists k: nat :: Only(items, i, k) && items[k].duplicate == Some(true))
    && (v == Distinct <==> exists k: nat :: Only(items, i, k) && items[k].duplicate == Some(false))
  }

  lemma {:induction false} CountIsOfMultiset(items: seq<Entry>, others: seq<Entry>, i: nat)
    requires multiset(items) == multiset(others)
    ensures CountId(items, i) == CountId(others, i)
  {
    if items == [] {
      assert |others| == |multiset(others)| == 0;
    } else {
      var last := items[|items| - 1];
      assert items == items[..|items| - 1] + [last];
      assert last in multiset(others);
      var k :| 0 <= k < |others| && others[k] == last;
      var rest := others[..k] + others[k + 1..];
      assert others == others[..k] + [last] + others[k + 1..];
      assert multiset(rest) == multiset(others) - multiset{last};
      assert multiset(items[..|items| - 1]) == multiset(items) - multiset{last};
      CountIsOfMultiset(items[..|items| - 1], rest, i);
      CountAround(others, k, i);
    }
  }

  lemma {:induction false} CountOfSum(a: seq<Entry>, b: seq<Entry>, i: nat)
    ensures CountId(a + b, i) == CountId(a, i) + CountId(b, i)
  {
    if b == [] {
      assert a + b == a;
    } else {
      assert (a + b)[..|a + b| - 1] == a + b[..|b| - 1];
      CountOfSum(a, b[..|b| - 1], i);
    }
  }

  lemma CountAround(items: seq<Entry>, k: nat, i: nat)
    requires k < |items|
    ensures CountId(items, i) == CountId(items[..k] + items[k + 1..], i) + if items[k].id == Some(i) then 1 else 0
  {
    var a, b := items[..k], items[k + 1..];
    assert items == a + ([items[k]] + b);
    CountOfSum(a, [items[k]] + b, i);
    CountOfSum([items[k]], b, i);
    CountOfSum(a, b, i);
    assert [items[k]][..0] == [];
  }

  /** The order of the entries does not matter. */
  lemma OrderDoesNotMatter(items: seq<Entry>, others: seq<Entry>, i: nat, v: Verdict)
    requires multiset(items) == multiset(others) && Attributed(items, i, v)
    ensures Attributed(others, i, v)
  {
    CountIsOfMultiset(items, others, i);
    OneCounted(items, i);
    OneCounted(others, i);
    forall k: nat, l: nat | Only(items, i, k) && Only(others, i, l)
      ensures items[k] == others[l]
    {
      assert items[k] in multiset(others);
      var j :| 0 <= j < |others| && others[j] == items[k];
    }
  }

  // The adapter.

  datatype Side = Side(name: string, entityType: string, summary: string)

  datatype Pair = Pair(existing: Side, incoming: Side)

  const MAX_PAIRS_PER_CALL := 16
  const CACHE_CAP := 4096

  /** The content key of a pair: both sides, names folded, hashed without collisions. */
  function KeyOf(norm: string -> string, p: Pair): Pair {
    Pair(p.existing.(name := norm(p.existing.name)), p.incoming.(name := norm(p.incoming.name)))
  }

  /** One call to the judge and what came back: nothing on error or timeout. */
  datatype Call = Call(group: seq<Pair>, answer: Option<seq<Verdict>>)

  /** What the adapter takes from a call: nothing definite unless there is a verdict per pair. */
  function Taken(call: Call): (r: seq<Verdict>)
    ensures |r| == |call.group|
  {
    if call.answer.Some? && |call.answer.value| == |call.group| then call.answer.value
    else seq(|call.group|, _ => Unknown)
  }

  class Extractor {
    var calls: seq<Call>

    constructor ()
      ensures calls == []
    {
      calls := [];
    }

    /** Any answer whatever may come back. */
    method JudgeDuplicates(group: seq<Pair>) returns (answer: Option<seq<Verdict>>)
      modifies this
      ensures calls == old(calls) + [Call(group, answer)]
    {
      answer := *;
      calls := calls + [Call(group, answer)];
    }
  }

  type Cache = map<Pair, Verdict>

  ghost predicate CacheOk(cache: Cache) {
    |cache| <= 4096 && forall k :: k in cache ==> cache[k] != Unknown
  }

  /** The positions of the pairs that the cache has no verdict for. */
  function Pending(norm: string -> string, cache: Cache, pairs: seq<Pair>): seq<nat> {
    if pairs == [] then []
    else
      Pending(norm, cache, pairs[..|pairs| - 1])
      + if KeyOf(norm, pairs[|pairs| - 1]) in cache then [] else [|pairs| - 1]
  }

  lemma {:induction false} PendingFacts(norm: string -> string, cache: Cache, pairs: seq<Pair>)
    ensures var p := Pending(norm, cache, pairs);
            && (forall i :: i in p <==> 0 <= i < |pairs| && KeyOf(norm, pairs[i]) !in cache)
            && Ascending(p)
  {
    if pairs != [] {
      var front, last := pairs[..|pairs| - 1], pairs[|pairs| - 1];
      PendingFacts(norm, cache, front);
      var p := Pending(norm, cache, front);
      assert forall i :: 0 <= i < |front| ==> front[i] == pairs[i];
      AscendingGrows(p, |front|);
      assert Pending(norm, cache, pairs) == if KeyOf(norm, last) in cache then p else p + [|front|];
    }
  }

  lemma AscendingGrows(p: seq<nat>, n: nat)
    requires Ascending(p) && forall i :: i in p ==> i < n
    ensures Ascending(p + [n])
  {
    assert forall i :: 0 <= i < |p| ==> p[i] in p;
  }

  /** Pending pair number `q` was judged in its own place: call `q / 16`, position `q % 16`. */
  ghost predicate JudgedInPlace(pairs: seq<Pair>, pending: seq<nat>, calls: seq<Call>, q: nat, v: Verdict)
    requires q < |pending| && pending[q] < |pairs|
  {
    && q / 16 < |calls|
    && q % 16 < |calls[q / 16].group|
    && calls[q / 16].group[q % 16] == pairs[pending[q]]
    && v == Taken(calls[q / 16])[q % 16]
  }

  /** Every pending pair judged so far was judged in its own place. */
  ghost predicate AllInPlace(pairs: seq<Pair>, pending: seq<nat>, calls: seq<Call>, done: nat, out: seq<Verdict>)
    requires |out| == |pairs| && done <= |pending| && forall q :: 0 <= q < |pending| ==> pending[q] < |pairs|
  {
    forall q :: 0 <= q < done ==> JudgedInPlace(pairs, pending, calls, q, out[pending[q]])
  }

  /** No call is empty or larger than the limit. */
  ghost predicate GroupsFit(calls: seq<Call>) {
    forall c :: 0 <= c < |calls| ==> 0 < |calls[c].group| <= 16
  }

  /** Every cached verdict was cached before, or is the verdict of a pending pair judged so far. */
  ghost predicate CacheFrom(norm: string -> string, pairs: seq<Pair>, pending: seq<nat>, out: seq<Verdict>, done: nat,
                            before: Cache, cache: Cache)
    requires |out| == |pairs| && done <= |pending| && forall q :: 0 <= q < |pending| ==> pending[q] < |pairs|
  {
    forall k :: k in cache ==>
      || (k in before && cache[k] == before[k])
      || exists q :: 0 <= q < done && KeyOf(norm, pairs[pending[q]]) == k && out[pending[q]] == cache[k]
  }

  predicate Ascending(pending: seq<nat>) {
    forall q, r :: 0 <= q < r < |pending| ==> pending[q] < pending[r]
  }

  /** The group holds the pairs at positions `at` to `to` of the pending list. */
  ghost predicate ChunkOf(pairs: seq<Pair>, pending: seq<nat>, at: nat, to: nat, group: seq<Pair>)
    requires at <= to <= |pending| && forall q :: 0 <= q < |pending| ==> pending[q] < |pairs|
  {
    |group| == to - at && forall p :: 0 <= p < to - at ==> group[p] == pairs[pending[at + p]]
  }

  function GroupAt(pairs: seq<Pair>, pending: seq<nat>, at: nat, to: nat): (group: seq<Pair>)
    requires at <= to <= |pending| && forall q :: 0 <= q < |pending| ==> pending[q] < |pairs|
    ensures ChunkOf(pairs, pending, at, to, group)
  {
    seq(to - at, i requires 0 <= i < to - at => pairs[pending[at + i]])
  }

  /** `after` is `out` with the verdicts at their own pending pairs. */
  ghost predicate Spread(pending: seq<nat>, at: nat, to: nat, out: seq<Verdict>, verdicts: seq<Verdict>,
                         after: seq<Verdict>)
    requires at <= to <= |pending| && to - at <= |verdicts|
    requires |out| == |after| && forall q :: 0 <= q < |pending| ==> pending[q] < |out|
  {
    && (forall q :: at <= q < to ==> after[pending[q]] == verdicts[q - at])
    && (forall i :: 0 <= i < |out| && (forall q :: at <= q < to ==> pending[q] != i) ==> after[i] == out[i])
  }

  /** Pairs that the cache knew have the cached verdict. */
  ghost predicate CachedStand(norm: string -> string, pairs: seq<Pair>, before: Cache, out: seq<Verdict>)
    requires |out| == |pairs|
  {
    forall i :: 0 <= i < |pairs| && KeyOf(norm, pairs[i]) in before ==> out[i] == before[KeyOf(norm, pairs[i])]
  }

  lemma PendingAreUncached(norm: string -> string, cache: Cache, pairs: seq<Pair>, pending: seq<nat>)
    requires forall i :: i in pending <==> 0 <= i < |pairs| && KeyOf(norm, pairs[i]) !in cache
    ensures forall q :: 0 <= q < |pending| ==> pending[q] < |pairs| && KeyOf(norm, pairs[pending[q]]) !in cache
  {
    forall q | 0 <= q < |pending|
      ensures pending[q] < |pairs| && KeyOf(norm, pairs[pending[q]]) !in cache
    {
      assert pending[q] in pending;
    }
  }

  lemma ChunkKeepsCached(norm: string -> string, pairs: seq<Pair>, pending: seq<nat>, before: Cache, at: nat, to: nat,
                         earlier: seq<Verdict>, verdicts: seq<Verdict>, out: seq<Verdict>)
    requires at <= to <= |pending| && to - at <= |verdicts| && |earlier| == |pairs| == |out|
    requires forall q :: 0 <= q < |pending| ==> pending[q] < |pairs| && KeyOf(norm, pairs[pending[q]]) !in before
    requires Spread(pending, at, to, earlier, verdicts, out) && CachedStand(norm, pairs, before, earlier)
    ensures CachedStand(norm, pairs, before, out)
  {
    forall i | 0 <= i < |pairs| && KeyOf(norm, pairs[i]) in before
      ensures out[i] == before[KeyOf(norm, pairs[i])]
    {
      assert forall q :: at <= q < to ==> pending[q] != i;
    }
  }

  /** Up to pending pair `at`: groups fit, known verdicts stand, judged ones are in their place. */
  ghost predicate SoFar(norm: string -> string, pairs: seq<Pair>, pending: seq<nat>, before: Cache, at: nat,
                        out: seq<Verdict>, calls: seq<Call>)
    requires |out| == |pairs| && at <= |pending| && forall q :: 0 <= q < |pending| ==> pending[q] < |pairs|
  {
    && (at == |pending| || at == |calls| * MAX_PAIRS_PER_CALL)
    && GroupsFit(calls) && CachedStand(norm, pairs, before, out) && AllInPlace(pairs, pending, calls, at, out)
  }

  lemma ChunkDone(norm: string -> string, pairs: seq<Pair>, pending: seq<nat>, before: Cache, at: nat, to: nat,
                  earlier: seq<Verdict>, calls: seq<Call>, call: Call, out: seq<Verdict>)
    requires at < to <= |pending|
    requires to == at + MAX_PAIRS_PER_CALL || (to == |pending| && to < at + MAX_PAIRS_PER_CALL)
    requires forall q :: 0 <= q < |pending| ==> pending[q] < |pairs| && KeyOf(norm, pairs[pending[q]]) !in before
    requires Ascending(pending) && |earlier| == |pairs| == |out|
    requires SoFar(norm, pairs, pending, before, at, earlier, calls)
    requires ChunkOf(pairs, pending, at, to, call.group) && Spread(pending, at, to, earlier, Taken(call), out)
    ensures SoFar(norm, pairs, pending, before, to, out, calls + [call])
  {
    ChunkInPlace(pairs, pending, calls, call, at, to, earlier, out);
    ChunkKeepsCached(norm, pairs, pending, before, at, to, earlier, Taken(call), out);
  }

  lemma NothingSpreadYet(pending: seq<nat>, at: nat, out: seq<Verdict>, verdicts: seq<Verdict>)
    requires at <= |pending| && forall q :: 0 <= q < |pending| ==> pending[q] < |out|
    ensures Spread(pending, at, at, out, verdicts, out)
  {
  }

  lemma SpreadStep(pending: seq<nat>, at: nat, q: nat, out: seq<Verdict>, verdicts: seq<Verdict>,
                   was: seq<Verdict>, after: seq<Verdict>)
    requires at <= q < |pending| && q - at < |verdicts| && Ascending(pending)
    requires |out| == |was| && forall q :: 0 <= q < |pending| ==> pending[q] < |out|
    requires Spread(pending, at, q, out, verdicts, was) && after == was[pending[q] := verdicts[q - at]]
    ensures Spread(pending, at, q + 1, out, verdicts, after)
  {
    forall i | 0 <= i < |out| && (forall r :: at <= r < q + 1 ==> pending[r] != i)
      ensures after[i] == out[i]
    {
      assert pending[q] != i;
    }
  }

  /** The cache after a put. */
  function Put(cache: Cache, key: Pair, v: Verdict): Cache {
    if v == Unknown then cache
    else (if |cache| >= CACHE_CAP then map[] else cache)[key := v]
  }

  /** The cache after the first `n` pending pairs have got their verdicts, one after the other. */
  function Cached(norm: string -> string, pairs: seq<Pair>, pending: seq<nat>, out: seq<Verdict>, n: nat,
                  before: Cache): Cache
    requires |out| == |pairs| && n <= |pending| && forall q :: 0 <= q < |pending| ==> pending[q] < |pairs|
  {
    if n == 0 then before
    else
      Put(Cached(norm, pairs, pending, out, n - 1, before), KeyOf(norm, pairs[pending[n - 1]]), out[pending[n - 1]])
  }

  ghost predicate CacheIs(norm: string -> string, pairs: seq<Pair>, pending: seq<nat>, out: seq<Verdict>, done: nat,
                          before: Cache, cache: Cache)
    requires |out| == |pairs| && done <= |pending| && forall q :: 0 <= q < |pending| ==> pending[q] < |pairs|
  {
    cache == Cached(norm, pairs, pending, out, done, before)
  }

  lemma NothingPutYet(norm: string -> string, pairs: seq<Pair>, pending: seq<nat>, out: seq<Verdict>, before: Cache)
    requires |out| == |pairs| && forall q :: 0 <= q < |pending| ==> pending[q] < |pairs|
    ensures CacheIs(norm, pairs, pending, out, 0, before, before)
  {
  }

  lemma {:induction false} SameVerdictsSameCache(norm: string -> string, pairs: seq<Pair>, pending: seq<nat>,
                                                 out: seq<Verdict>, out': seq<Verdict>, n: nat, before: Cache)
    requires |out| == |out'| == |pairs| && n <= |pending| && forall q :: 0 <= q < |pending| ==> pending[q] < |pairs|
    requires forall q :: 0 <= q < n ==> out'[pending[q]] == out[pending[q]]
    ensures Cached(norm, pairs, pending, out', n, before) == Cached(norm, pairs, pending, out, n, before)
  {
    if n > 0 {
      SameVerdictsSameCache(norm, pairs, pending, out, out', n - 1, before);
    }
  }

  lemma PutStep(norm: string -> string, pairs: seq<Pair>, pending: seq<nat>, was: seq<Verdict>, done: nat,
                before: Cache, had: Cache, v: Verdict, cache: Cache)
    requires done < |pending| && |was| == |pairs| && Ascending(pending)
    requires forall q :: 0 <= q < |pending| ==> pending[q] < |pairs|
    requires CacheIs(norm, pairs, pending, was, done, before, had)
    requires cache == Put(had, KeyOf(norm, pairs[pending[done]]), v)
    ensures CacheIs(norm, pairs, pending, was[pending[done] := v], done + 1, before, cache)
  {
    SameVerdictsSameCache(norm, pairs, pending, was, was[pending[done] := v], done, before);
  }

  /** Two pairs have the same key exactly when they agree in everything but the spelling of the names. */
  lemma KeysTellApart(norm: string -> string, p: Pair, q: Pair)
    ensures KeyOf(norm, p) == KeyOf(norm, q)
            <==> && norm(p.existing.name) == norm(q.existing.name)
                 && p.existing.entityType == q.existing.entityType && p.existing.summary == q.existing.summary
                 && norm(p.incoming.name) == norm(q.incoming.name)
                 && p.incoming.entityType == q.incoming.entityType && p.incoming.summary == q.incoming.summary
  {
    assert KeyOf(norm, p).existing.name == norm(p.existing.name);
    assert KeyOf(norm, q).existing.name == norm(q.existing.name);
  }

  /** Every cached verdict was cached before, or is the verdict of a pending pair judged so far. */
  lemma {:induction false} NothingElseIsCached(norm: string -> string, pairs: seq<Pair>, pending: seq<nat>,
                                               out: seq<Verdict>, n: nat, before: Cache)
    requires |out| == |pairs| && n <= |pending| && forall q :: 0 <= q < |pending| ==> pending[q] < |pairs|
    ensures CacheFrom(norm, pairs, pending, out, n, before, Cached(norm, pairs, pending, out, n, before))
  {
    if n > 0 {
      NothingElseIsCached(norm, pairs, pending, out, n - 1, before);
    }
  }

  /** Pending pair `q` is the last one judged with its key, and its verdict is definite. */
  ghost predicate LastOfKey(norm: string -> string, pairs: seq<Pair>, pending: seq<nat>, out: seq<Verdict>, n: nat,
                            q: nat)
    requires |out| == |pairs| && n <= |pending| && forall q :: 0 <= q < |pending| ==> pending[q] < |pairs|
  {
    && q < n && out[pending[q]] != Unknown
    && forall r :: q < r < n && out[pending[r]] != Unknown ==>
         KeyOf(norm, pairs[pending[r]]) != KeyOf(norm, pairs[pending[q]])
  }

  ghost predicate NotJudged(norm: string -> string, pairs: seq<Pair>, pending: seq<nat>, out: seq<Verdict>, n: nat,
                            k: Pair)
    requires |out| == |pairs| && n <= |pending| && forall q :: 0 <= q < |pending| ==> pending[q] < |pairs|
  {
    forall r :: 0 <= r < n && out[pending[r]] != Unknown ==> KeyOf(norm, pairs[pending[r]]) != k
  }

  lemma {:induction false} CacheGrowsBySteps(norm: string -> string, pairs: seq<Pair>, pending: seq<nat>,
                                             out: seq<Verdict>, n: nat, before: Cache)
    requires |out| == |pairs| && n <= |pending| && forall q :: 0 <= q < |pending| ==> pending[q] < |pairs|
    requires |before| + n <= 4096
    ensures |Cached(norm, pairs, pending, out, n, before)| <= |before| + n
  {
    if n > 0 {
      CacheGrowsBySteps(norm, pairs, pending, out, n - 1, before);
      PutSize(Cached(norm, pairs, pending, out, n - 1, before), KeyOf(norm, pairs[pending[n - 1]]),
              out[pending[n - 1]]);
    }
  }

  /** With room for all of them, the last definite verdict of a key is in the cache. */
  lemma {:induction false} LastVerdictStays(norm: string -> string, pairs: seq<Pair>, pending: seq<nat>,
                                            out: seq<Verdict>, n: nat, before: Cache, q: nat)
    requires |out| == |pairs| && n <= |pending| && forall q :: 0 <= q < |pending| ==> pending[q] < |pairs|
    requires |before| + n <= 4096 && LastOfKey(norm, pairs, pending, out, n, q)
    ensures var after, key := Cached(norm, pairs, pending, out, n, before), KeyOf(norm, pairs[pending[q]]);
            key in after && after[key] == out[pending[q]]
  {
    var was := Cached(norm, pairs, pending, out, n - 1, before);
    CacheGrowsBySteps(norm, pairs, pending, out, n - 1, before);
    PutSize(was, KeyOf(norm, pairs[pending[n - 1]]), out[pending[n - 1]]);
    if q < n - 1 {
      assert LastOfKey(norm, pairs, pending, out, n - 1, q);
      LastVerdictStays(norm, pairs, pending, out, n - 1, before, q);
    }
  }

  /** And so is a verdict cached before whose key got no definite one. */
  lemma {:induction false} OldVerdictStays(norm: string -> string, pairs: seq<Pair>, pending: seq<nat>,
                                           out: seq<Verdict>, n: nat, before: Cache, key: Pair)
    requires |out| == |pairs| && n <= |pending| && forall q :: 0 <= q < |pending| ==> pending[q] < |pairs|
    requires |before| + n <= 4096 && key in before && NotJudged(norm, pairs, pending, out, n, key)
    ensures var after := Cached(norm, pairs, pending, out, n, before); key in after && after[key] == before[key]
  {
    if n > 0 {
      CacheGrowsBySteps(norm, pairs, pending, out, n - 1, before);
      PutSize(Cached(norm, pairs, pending, out, n - 1, before), KeyOf(norm, pairs[pending[n - 1]]),
              out[pending[n - 1]]);
      OldVerdictStays(norm, pairs, pending, out, n - 1, before, key);
    }
  }

  lemma PutSize(cache: Cache, key: Pair, v: Verdict)
    requires |cache| < 4096
    ensures |Put(cache, key, v)| <= |cache| + 1
    ensures v != Unknown ==> Put(cache, key, v) == cache[key := v]
  {
    assert cache[key := v].Keys == cache.Keys + {key};
    assert |cache[key := v]| == |cache[key := v].Keys| && |cache| == |cache.Keys|;
  }

  lemma SizeAfterInsert(cache: Cache, key: Pair, v: Verdict)
    requires |cache| < CACHE_CAP
    ensures |cache[key := v]| <= CACHE_CAP
  {
    assert cache[key := v].Keys == cache.Keys + {key};
    assert |cache[key := v]| == |cache[key := v].Keys| && |cache| == |cache.Keys|;
  }

  lemma ChunkInPlace(pairs: seq<Pair>, pending: seq<nat>, calls: seq<Call>, call: Call, at: nat, to: nat,
                     earlier: seq<Verdict>, out: seq<Verdict>)
    requires at < to <= |pending| && to <= at + MAX_PAIRS_PER_CALL && at == |calls| * MAX_PAIRS_PER_CALL
    requires (forall q :: 0 <= q < |pending| ==> pending[q] < |pairs|) && Ascending(pending)
    requires |earlier| == |pairs| && |out| == |pairs|
    requires ChunkOf(pairs, pending, at, to, call.group) && Spread(pending, at, to, earlier, Taken(call), out)
    requires AllInPlace(pairs, pending, calls, at, earlier)
    ensures AllInPlace(pairs, pending, calls + [call], to, out)
  {
    forall q | 0 <= q < to
      ensures JudgedInPlace(pairs, pending, calls + [call], q, out[pending[q]])
    {
      if q < at {
        assert JudgedInPlace(pairs, pending, calls, q, earlier[pending[q]]);
        assert forall r :: at <= r < to ==> pending[r] != pending[q];
      } else {
        assert q / MAX_PAIRS_PER_CALL == |calls| && q % MAX_PAIRS_PER_CALL == q - at;
        assert call.group[q - at] == pairs[pending[at + (q - at)]];
      }
    }
  }

  /** The verdicts up to pending pair `q` are spread from `out` to `now`, and put into the cache. */
  ghost predicate SpreadTo(norm: string -> string, pairs: seq<Pair>, pending: seq<nat>, at: nat, q: nat,
                           verdicts: seq<Verdict>, out: seq<Verdict>, now: seq<Verdict>, before: Cache, cache: Cache)
    requires |out| == |pairs| && at <= q <= |pending| && q - at <= |verdicts|
    requires forall q :: 0 <= q < |pending| ==> pending[q] < |pairs|
  {
    && |now| == |pairs| && CacheOk(cache)
    && Spread(pending, at, q, out, verdicts, now) && CacheIs(norm, pairs, pending, now, q, before, cache)
  }

  class DedupAdapter {
    const norm: string -> string
    const extractor: Extractor
    var cache: Cache

    constructor (norm: string -> string, extractor: Extractor)
      ensures this.norm == norm && this.extractor == extractor && cache == map[] && CacheOk(cache)
    {
      this.norm, this.extractor, cache := norm, extractor, map[];
    }

    /** `cache_put`: an unknown verdict is dropped, a full cache is emptied first. */
    method CachePut(key: Pair, v: Verdict)
      requires CacheOk(cache)
      modifies this
      ensures CacheOk(cache)
      ensures cache == Put(old(cache), key, v)
      ensures v == Unknown ==> cache == old(cache)
      ensures v != Unknown ==> cache == if |old(cache)| < 4096 then old(cache)[key := v] else map[key := v]
    {
      if v == Unknown {
        return;
      }
      if |cache| >= CACHE_CAP {
        cache := map[];
      }
      SizeAfterInsert(cache, key, v);
      cache := cache[key := v];
    }

    method JudgeGroup(group: seq<Pair>) returns (verdicts: seq<Verdict>, ghost call: Call)
      modifies extractor
      ensures call.group == group && extractor.calls == old(extractor.calls) + [call]
      ensures verdicts == Taken(call)
      ensures call.answer.Some? && |call.answer.value| == |group| ==> verdicts == call.answer.value
      ensures call.answer.None? || |call.answer.value| != |group| ==>
                |verdicts| == |group| && forall i :: 0 <= i < |group| ==> verdicts[i] == Unknown
    {
      var answer := extractor.JudgeDuplicates(group);
      call := Call(group, answer);
      verdicts := if answer.Some? && |answer.value| == |group| then answer.value else seq(|group|, _ => Unknown);
    }

    /** The verdicts that the cache already has. */
    method FromCache(pairs: seq<Pair>) returns (out: seq<Verdict>, pending: seq<nat>)
      ensures |out| == |pairs| && pending == Pending(norm, cache, pairs)
      ensures forall i :: 0 <= i < |pairs| ==>
                out[i] == if KeyOf(norm, pairs[i]) in cache then cache[KeyOf(norm, pairs[i])] else Unknown
    {
      out, pending := [], [];
      for i := 0 to |pairs|
        invariant |out| == i && pending == Pending(norm, cache, pairs[..i])
        invariant forall j :: 0 <= j < i ==>
                    out[j] == if KeyOf(norm, pairs[j]) in cache then cache[KeyOf(norm, pairs[j])] else Unknown
      {
        assert pairs[..i + 1][..i] == pairs[..i];
        var key := KeyOf(norm, pairs[i]);
        if key in cache {
          out := out + [cache[key]];
        } else {
          out, pending := out + [Unknown], pending + [i];
        }
      }
      assert pairs[..|pairs|] == pairs;
    }

    /** One group: its verdicts go to their own pairs, and the definite ones to the cache. */
    method JudgeChunk(pairs: seq<Pair>, pending: seq<nat>, at: nat, to: nat, out: seq<Verdict>, ghost before: Cache)
      returns (out': seq<Verdict>, ghost call: Call)
      requires at < to <= |pending| && |out| == |pairs| && CacheOk(cache)
      requires (forall q :: 0 <= q < |pending| ==> pending[q] < |pairs|) && Ascending(pending)
      requires CacheIs(norm, pairs, pending, out, at, before, cache)
      modifies this, extractor
      ensures extractor.calls == old(extractor.calls) + [call]
      ensures |out'| == |out| && CacheOk(cache)
      ensures ChunkOf(pairs, pending, at, to, call.group)
      ensures Spread(pending, at, to, out, Taken(call), out')
      ensures CacheIs(norm, pairs, pending, out', to, before, cache)
    {
      var group := GroupAt(pairs, pending, at, to);
      var verdicts;
      verdicts, call := JudgeGroup(group);
      NothingSpreadYet(pending, at, out, verdicts);
      out' := SpreadVerdicts(pairs, pending, at, to, verdicts, out, before);
    }

    /** One verdict goes to its own pair and, when it is definite, to the cache. */
    method SpreadOne(pairs: seq<Pair>, pending: seq<nat>, at: nat, q: nat, verdicts: seq<Verdict>,
                     was: seq<Verdict>, ghost out: seq<Verdict>, ghost before: Cache)
      returns (out': seq<Verdict>)
      requires at <= q < |pending| && q - at < |verdicts| && |out| == |pairs|
      requires (forall q :: 0 <= q < |pending| ==> pending[q] < |pairs|) && Ascending(pending)
      requires SpreadTo(norm, pairs, pending, at, q, verdicts, out, was, before, cache)
      modifies this
      ensures SpreadTo(norm, pairs, pending, at, q + 1, verdicts, out, out', before, cache)
    {
      var i, v := pending[q], verdicts[q - at];
      ghost var had := cache;
      out' := was[i := v];
      CachePut(KeyOf(norm, pairs[i]), v);
      SpreadStep(pending, at, q, out, verdicts, was, out');
      PutStep(norm, pairs, pending, was, q, before, had, v, cache);
    }

    method SpreadVerdicts(pairs: seq<Pair>, pending: seq<nat>, at: nat, to: nat, verdicts: seq<Verdict>,
                          out: seq<Verdict>, ghost before: Cache)
      returns (out': seq<Verdict>)
      requires at < to <= |pending| && |verdicts| == to - at && |out| == |pairs|
      requires (forall q :: 0 <= q < |pending| ==> pending[q] < |pairs|) && Ascending(pending)
      requires SpreadTo(norm, pairs, pending, at, at, verdicts, out, out, before, cache)
      modifies this
      ensures SpreadTo(norm, pairs, pending, at, to, verdicts, out, out', before, cache)
    {
      out' := out;
      var q := at;
      while q < to
        invariant at <= q <= to
        invariant SpreadTo(norm, pairs, pending, at, q, verdicts, out, out', before, cache)
      {
        out' := SpreadOne(pairs, pending, at, q, verdicts, out', out, before);
        q := q + 1;
      }
    }

    /** The next group of at most sixteen pending pairs. */
    method JudgeNext(pairs: seq<Pair>, pending: seq<nat>, at: nat, earlier: seq<Verdict>, ghost before: Cache,
                     ghost calls: seq<Call>)
      returns (to: nat, out: seq<Verdict>, ghost call: Call)
      requires at < |pending| && |earlier| == |pairs| && CacheOk(cache) && Ascending(pending)
      requires forall q :: 0 <= q < |pending| ==> pending[q] < |pairs| && KeyOf(norm, pairs[pending[q]]) !in before
      requires SoFar(norm, pairs, pending, before, at, earlier, calls)
      requires CacheIs(norm, pairs, pending, earlier, at, before, cache)
      modifies this, extractor
      ensures at < to <= |pending| && |out| == |pairs| && CacheOk(cache)
      ensures extractor.calls == old(extractor.calls) + [call]
      ensures SoFar(norm, pairs, pending, before, to, out, calls + [call])
      ensures CacheIs(norm, pairs, pending, out, to, before, cache)
    {
      to := if at + MAX_PAIRS_PER_CALL <= |pending| then at + MAX_PAIRS_PER_CALL else |pending|;
      out, call := JudgeChunk(pairs, pending, at, to, earlier, before);
      ChunkDone(norm, pairs, pending, before, at, to, earlier, calls, call, out);
    }

    /** The groups of pending pairs, one call each. */
    method JudgePending(pairs: seq<Pair>, pending: seq<nat>, known: seq<Verdict>)
      returns (out: seq<Verdict>, ghost calls: seq<Call>)
      requires |known| == |pairs| && CacheOk(cache) && Ascending(pending)
      requires forall q :: 0 <= q < |pending| ==> pending[q] < |pairs| && KeyOf(norm, pairs[pending[q]]) !in cache
      requires CachedStand(norm, pairs, cache, known)
      modifies this, extractor
      ensures |out| == |pairs| && CacheOk(cache) && CachedStand(norm, pairs, old(cache), out)
      ensures extractor.calls == old(extractor.calls) + calls && GroupsFit(calls)
      ensures AllInPlace(pairs, pending, calls, |pending|, out)
      ensures CacheIs(norm, pairs, pending, out, |pending|, old(cache), cache)
    {
      ghost var before := cache;
      out, calls := known, [];
      NothingPutYet(norm, pairs, pending, out, before);
      var at := 0;
      while at < |pending|
        invariant at <= |pending| && |out| == |pairs| && CacheOk(cache)
        invariant extractor.calls == old(extractor.calls) + calls
        invariant SoFar(norm, pairs, pending, before, at, out, calls)
        invariant CacheIs(norm, pairs, pending, out, at, before, cache)
        decreases |pending| - at
      {
        ghost var call;
        at, out, call := JudgeNext(pairs, pending, at, out, before, calls);
        calls := calls + [call];
      }
    }

    /** `judge_batch`: a pair's verdict is the cached one or comes from its own position in its own
      * call; the definite verdicts enter the cache in order, and it stays within its bound. */
    method JudgeBatch(pairs: seq<Pair>) returns (out: seq<Verdict>, ghost calls: seq<Call>)
      requires CacheOk(cache)
      modifies this, extractor
      ensures |out| == |pairs| && CacheOk(cache) && CachedStand(norm, pairs, old(cache), out)
      ensures extractor.calls == old(extractor.calls) + calls && GroupsFit(calls)
      ensures var pending := Pending(norm, old(cache), pairs);
              && (forall q :: 0 <= q < |pending| ==> pending[q] < |pairs|)
              && AllInPlace(pairs, pending, calls, |pending|, out)
              && cache == Cached(norm, pairs, pending, out, |pending|, old(cache))
    {
      var known, pending := FromCache(pairs);
      PendingFacts(norm, cache, pairs);
      PendingAreUncached(norm, cache, pairs, pending);
      out, calls := JudgePending(pairs, pending, known);
    }
  }
}
