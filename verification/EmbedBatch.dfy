/** Batched embedding requests: reassembling one response by its indices, and cutting the input into
  * chunks whose answers are joined again in order. */
module EmbedBatch {
  import opened Common

  type Text = string
  type Vector = seq<real>

  datatype Error =
    | WrongCount(got: nat)
    | OutOfRange(index: nat)
    | DuplicateIndex(index: nat)
    | EmptyVector
    | MissingIndex(index: nat)
    | WrongDimension(got: nat)
    | NoResponse

  datatype Result<+T> = Ok(value: T) | Err(error: Error)

  /** One entry of a response. */
  datatype Item = Item(index: nat, embedding: Vector)

  /** Narrowing a received vector to the stored width, number by number. */
  function Narrow(narrow: real -> real, v: Vector): Vector {
    seq(|v|, i requires 0 <= i < |v| => narrow(v[i]))
  }

  // One response.

  /** The indices are a permutation of 0..n-1. */
  predicate IsPermutation(items: seq<Item>, n: nat) {
    && |items| == n
    && (forall k :: 0 <= k < n ==> items[k].index < n)
    && (forall j, k :: 0 <= j < k < n ==> items[j].index != items[k].index)
  }

  predicate NoneEmpty(items: seq<Item>) {
    forall k :: 0 <= k < |items| ==> items[k].embedding != []
  }

  predicate SeenBefore(items: seq<Item>, k: nat)
    requires k < |items|
  {
    exists j :: 0 <= j < k && items[j].index == items[k].index
  }

  /** What is wrong with entry `k`, given those before it. */
  function Fault(items: seq<Item>, n: nat, k: nat): Option<Error>
    requires k < |items|
  {
    if items[k].index >= n then Some(OutOfRange(items[k].index))
    else if SeenBefore(items, k) then Some(DuplicateIndex(items[k].index))
    else if items[k].embedding == [] then Some(EmptyVector)
    else None
  }

  /** What may be wrong with an entry, in the order it is looked for: its index is too large, an earlier entry
    * has it, its vector is empty. */
  lemma FaultIs(items: seq<Item>, n: nat, k: nat)
    requires k < |items|
    ensures var f, item := Fault(items, n, k), items[k];
            var repeated := exists j :: 0 <= j < k && items[j].index == item.index;
            && (f == Some(OutOfRange(item.index)) <==> item.index >= n)
            && (f == Some(DuplicateIndex(item.index)) <==> item.index < n && repeated)
            && (f == Some(EmptyVector) <==> item.index < n && !repeated && item.embedding == [])
            && (f.None? <==> item.index < n && !repeated && item.embedding != [])
  {
  }

  predicate FirstFault(items: seq<Item>, n: nat, k: nat) {
    k < |items| && Fault(items, n, k).Some? && forall j :: 0 <= j < k ==> Fault(items, n, j).None?
  }

  /** There is at most one first fault, and one if there is any. */
  lemma FirstFaultIsOne(items: seq<Item>, n: nat, j: nat, k: nat)
    requires FirstFault(items, n, j) && k < |items| && Fault(items, n, k).Some?
    ensures j <= k && (FirstFault(items, n, k) ==> j == k)
  {
  }

  lemma FaultlessIsPermutation(items: seq<Item>, n: nat)
    requires |items| == n && forall k :: 0 <= k < n ==> Fault(items, n, k).None?
    ensures IsPermutation(items, n) && NoneEmpty(items)
  {
    forall j, k | 0 <= j < k < n
      ensures items[j].index != items[k].index
    {
      assert Fault(items, n, k).None?;
    }
    forall k | 0 <= k < n
      ensures items[k].index < n && items[k].embedding != []
    {
      assert Fault(items, n, k).None?;
    }
  }

  function Indices(items: seq<Item>): (r: set<nat>)
    ensures forall i: nat :: i in r <==> exists k :: 0 <= k < |items| && items[k].index == i
  {
    if items == [] then {}
    else
      assert items == items[..|items| - 1] + [items[|items| - 1]];
      Indices(items[..|items| - 1]) + {items[|items| - 1].index}
  }

  function Below(n: nat): (r: set<nat>)
    ensures |r| == n && forall i: nat :: i in r <==> i < n
  {
    if n == 0 then {} else Below(n - 1) + {n - 1}
  }

  lemma {:induction false} DistinctCount(items: seq<Item>)
    requires forall j, k :: 0 <= j < k < |items| ==> items[j].index != items[k].index
    ensures |Indices(items)| == |items|
  {
    if items != [] {
      var front, last := items[..|items| - 1], items[|items| - 1];
      DistinctCount(front);
      assert last.index !in Indices(front);
    }
  }

  lemma SubsetOfSameSize(a: set<nat>, b: set<nat>)
    requires a <= b && |a| == |b|
    ensures a == b
  {
    assert |b - a| == |b| - |a|;
  }

  /** The pigeonhole: n distinct indices below n leave none out. */
  lemma EveryIndexOccurs(items: seq<Item>, n: nat, i: nat)
    requires IsPermutation(items, n) && i < n
    ensures exists k :: 0 <= k < n && items[k].index == i
  {
    DistinctCount(items);
    SubsetOfSameSize(Indices(items), Below(n));
    assert i in Indices(items);
  }

  /** `out` holds at each index the vector that carried it. */
  predicate Reassembles(narrow: real -> real, items: seq<Item>, out: seq<Vector>) {
    |out| == |items|
    && forall k :: 0 <= k < |items| ==>
         items[k].index < |out| && out[items[k].index] == Narrow(narrow, items[k].embedding)
  }

  /** Number by number. */
  lemma ReassembledNumbers(narrow: real -> real, items: seq<Item>, out: seq<Vector>, k: nat)
    requires Reassembles(narrow, items, out) && k < |items|
    ensures var v := items[k].embedding;
            && items[k].index < |out| && |out[items[k].index]| == |v|
            && forall i :: 0 <= i < |v| ==> out[items[k].index][i] == narrow(v[i])
  {
  }

  /** What the slots hold after the first `k` entries. */
  ghost predicate Filled(narrow: real -> real, items: seq<Item>, k: nat, slots: seq<Option<Vector>>)
    requires k <= |items|
  {
    && (forall j :: 0 <= j < k ==>
          items[j].index < |slots| && slots[items[j].index] == Some(Narrow(narrow, items[j].embedding)))
    && (forall i :: 0 <= i < |slots| && slots[i].Some? ==> exists j :: 0 <= j < k && items[j].index == i)
  }

  /** `extract_embeddings_ordered`: it succeeds exactly on a permutation of non-empty vectors, and
    * otherwise reports the first thing wrong; a missing index is never what is wrong. */
  method ExtractEmbeddingsOrdered(narrow: real -> real, items: seq<Item>, n: nat) returns (r: Result<seq<Vector>>)
    ensures r.Ok? <==> IsPermutation(items, n) && NoneEmpty(items)
    ensures r.Ok? ==> Reassembles(narrow, items, r.value)
    ensures r.Err? && |items| != n ==> r.error == WrongCount(|items|)
    ensures r.Err? && |items| == n ==> exists k :: FirstFault(items, n, k) && Some(r.error) == Fault(items, n, k)
    ensures r.Err? ==> !r.error.MissingIndex?
  {
    if |items| != n {
      return Err(WrongCount(|items|));
    }
    var slots := new Option<Vector>[n](_ => None);
    for k := 0 to n
      invariant Filled(narrow, items, k, slots[..])
      invariant forall j :: 0 <= j < k ==> Fault(items, n, j).None?
    {
      var item := items[k];
      var idx := item.index;
      if idx >= n {
        assert FirstFault(items, n, k);
        FaultIsNoPermutation(items, n, k);
        return Err(OutOfRange(idx));
      }
      if slots[idx].Some? {
        assert slots[..][idx].Some?;
        assert FirstFault(items, n, k);
        FaultIsNoPermutation(items, n, k);
        return Err(DuplicateIndex(idx));
      }
      assert !SeenBefore(items, k) by {
        assert slots[..][idx].None?;
      }
      if item.embedding == [] {
        assert FirstFault(items, n, k);
        FaultIsNoPermutation(items, n, k);
        return Err(EmptyVector);
      }
      ghost var before := slots[..];
      slots[idx] := Some(Narrow(narrow, item.embedding));
      FilledStep(narrow, items, k, before);
      assert slots[..] == before[idx := Some(Narrow(narrow, item.embedding))];
    }
    FaultlessIsPermutation(items, n);
    forall i | 0 <= i < n
      ensures slots[i].Some?
    {
      EveryIndexOccurs(items, n, i);
      var k :| 0 <= k < n && items[k].index == i;
      assert slots[..][items[k].index].Some?;
    }
    r := Collect(slots);
    forall k | 0 <= k < n
      ensures items[k].index < n && r.value[items[k].index] == Narrow(narrow, items[k].embedding)
    {
      assert slots[..][items[k].index] == Some(Narrow(narrow, items[k].embedding));
    }
  }

  lemma FaultIsNoPermutation(items: seq<Item>, n: nat, k: nat)
    requires |items| == n && k < n && Fault(items, n, k).Some?
    ensures !(IsPermutation(items, n) && NoneEmpty(items))
  {
  }

  lemma FilledStep(narrow: real -> real, items: seq<Item>, k: nat, slots: seq<Option<Vector>>)
    requires k < |items| && Filled(narrow, items, k, slots) && items[k].index < |slots| && !SeenBefore(items, k)
    ensures Filled(narrow, items, k + 1, slots[items[k].index := Some(Narrow(narrow, items[k].embedding))])
  {
    var after := slots[items[k].index := Some(Narrow(narrow, items[k].embedding))];
    forall i | 0 <= i < |after| && after[i].Some?
      ensures exists j :: 0 <= j < k + 1 && items[j].index == i
    {
      if i == items[k].index {
        assert items[k].index == i;
      } else {
        var j :| 0 <= j < k && items[j].index == i;
      }
    }
  }

  /** The final pass over the slots: an empty one is a missing index. */
  method Collect(slots: array<Option<Vector>>) returns (r: Result<seq<Vector>>)
    ensures r.Ok? <==> forall i :: 0 <= i < slots.Length ==> slots[i].Some?
    ensures r.Ok? ==> |r.value| == slots.Length && forall i :: 0 <= i < slots.Length ==> slots[i] == Some(r.value[i])
    ensures r.Err? ==> r.error.MissingIndex? && r.error.index < slots.Length && slots[r.error.index].None?
  {
    var out: seq<Vector> := [];
    for i := 0 to slots.Length
      invariant |out| == i && forall j :: 0 <= j < i ==> slots[j] == Some(out[j])
    {
      if slots[i].None? {
        return Err(MissingIndex(i));
      }
      out := out + [slots[i].value];
    }
    r := Ok(out);
  }

  // Chunks.

  /** `chunks(size)`: full chunks, the last one perhaps shorter. */
  function Chunks(texts: seq<Text>, size: nat): seq<seq<Text>>
    requires size > 0
    decreases |texts|
  {
    if texts == [] then []
    else if |texts| <= size then [texts]
    else [texts[..size]] + Chunks(texts[size..], size)
  }

  function Flatten<T>(parts: seq<seq<T>>): seq<T> {
    if parts == [] then [] else parts[0] + Flatten(parts[1..])
  }

  /** The embedding service, as a transport sees it: the entries it answers a request with. */
  type Service = seq<Text> -> Option<seq<Item>>

  /** A usable answer to one chunk. */
  ghost predicate Answered(service: Service, narrow: real -> real, dim: nat, chunk: seq<Text>, out: seq<Vector>) {
    && service(chunk).Some?
    && IsPermutation(service(chunk).value, |chunk|) && NoneEmpty(service(chunk).value)
    && Reassembles(narrow, service(chunk).value, out)
    && forall v :: v in out ==> |v| == dim
  }

  ghost predicate Answerable(service: Service, narrow: real -> real, dim: nat, chunk: seq<Text>) {
    exists out :: Answered(service, narrow, dim, chunk, out)
  }

  /** Two reassemblies of one response agree. */
  lemma ReassemblyIsUnique(narrow: real -> real, items: seq<Item>, a: seq<Vector>, b: seq<Vector>)
    requires IsPermutation(items, |items|) && Reassembles(narrow, items, a) && Reassembles(narrow, items, b)
    ensures a == b
  {
    forall i | 0 <= i < |a|
      ensures a[i] == b[i]
    {
      EveryIndexOccurs(items, |items|, i);
      var k :| 0 <= k < |items| && items[k].index == i;
    }
  }

  /** Vector `v` belongs to text `i`, and all before it have the dimension asked for. */
  ghost predicate FirstOfWrongSize(items: seq<Item>, dim: nat, v: Vector, i: nat) {
    && |v| != dim && Item(i, v) in items
    && forall item :: item in items && item.index < i ==> |item.embedding| == dim
  }

  /** Why a chunk fails: no answer, a wrong number of entries, the first entry with a fault, or the first text
    * whose vector has another dimension. */
  ghost predicate FailsWith(service: Service, dim: nat, chunk: seq<Text>, e: Error) {
    var n := |chunk|;
    match service(chunk)
    case None => e == NoResponse
    case Some(items) =>
      if |items| != n then e == WrongCount(|items|)
      else if exists k :: FirstFault(items, n, k) then
        exists k :: FirstFault(items, n, k) && Fault(items, n, k) == Some(e)
      else e.WrongDimension? && exists i, v :: FirstOfWrongSize(items, dim, v, i) && e.got == |v|
  }

  lemma FoundWrongSize(narrow: real -> real, items: seq<Item>, dim: nat, out: seq<Vector>, i: nat)
    requires IsPermutation(items, |items|) && NoneEmpty(items) && Reassembles(narrow, items, out)
    requires i < |out| && |out[i]| != dim && forall j :: 0 <= j < i ==> |out[j]| == dim
    ensures exists v :: FirstOfWrongSize(items, dim, v, i) && |v| == |out[i]|
    ensures forall k :: !FirstFault(items, |items|, k)
  {
    EveryIndexOccurs(items, |items|, i);
    var k :| 0 <= k < |items| && items[k].index == i;
    var v := items[k].embedding;
    assert items[k] == Item(i, v) && |v| == |out[i]|;
    assert FirstOfWrongSize(items, dim, v, i);
  }

  method EmbedChunk(service: Service, narrow: real -> real, dim: nat, chunk: seq<Text>) returns (r: Result<seq<Vector>>)
    ensures r.Ok? ==> Answered(service, narrow, dim, chunk, r.value)
    ensures r.Err? ==> !Answerable(service, narrow, dim, chunk) && FailsWith(service, dim, chunk, r.error)
  {
    var answer := service(chunk);
    if answer.None? {
      return Err(NoResponse);
    }
    r := ExtractEmbeddingsOrdered(narrow, answer.value, |chunk|);
    if r.Err? {
      return;
    }
    for i := 0 to |r.value|
      invariant r.Ok? && Reassembles(narrow, answer.value, r.value)
      invariant forall j :: 0 <= j < i ==> |r.value[j]| == dim
    {
      if |r.value[i]| != dim {
        forall out | Answered(service, narrow, dim, chunk, out)
          ensures out == r.value
        {
          ReassemblyIsUnique(narrow, answer.value, out, r.value);
        }
        assert r.value[i] in r.value;
        FoundWrongSize(narrow, answer.value, dim, r.value, i);
        return Err(WrongDimension(|r.value[i]|));
      }
    }
  }

  /** `do_embed_batch`: the answers of all chunks, joined in input order; any chunk's failure fails the
    * whole call, and empty input makes no request. */
  method DoEmbedBatch(service: Service, narrow: real -> real, dim: nat, texts: seq<Text>, size: nat)
    returns (r: Result<seq<Vector>>, ghost outs: seq<seq<Vector>>)
    requires size > 0
    ensures r.Err? <==> exists chunk :: chunk in Chunks(texts, size) && !Answerable(service, narrow, dim, chunk)
    ensures r.Err? ==> exists chunk :: && chunk in Chunks(texts, size) && !Answerable(service, narrow, dim, chunk)
                                       && FailsWith(service, dim, chunk, r.error)
    ensures r.Ok? ==> && r.value == Flatten(outs) && |outs| == |Chunks(texts, size)|
                      && forall c :: 0 <= c < |outs| ==> Answered(service, narrow, dim, Chunks(texts, size)[c], outs[c])
  {
    outs := [];
    if texts == [] {
      return Ok([]), outs;
    }
    var chunks := Chunks(texts, size);
    var joined: seq<Vector> := [];
    for c := 0 to |chunks|
      invariant |outs| == c && joined == Flatten(outs)
      invariant forall d :: 0 <= d < c ==> Answered(service, narrow, dim, chunks[d], outs[d])
    {
      var answer := EmbedChunk(service, narrow, dim, chunks[c]);
      if answer.Err? {
        assert chunks[c] in chunks && FailsWith(service, dim, chunks[c], answer.error);
        return Err(answer.error), outs;
      }
      FlattenEnd(outs, answer.value);
      joined := joined + answer.value;
      outs := outs + [answer.value];
    }
    r := Ok(joined);
    AllAnswerable(service, narrow, dim, chunks, outs);
  }

  lemma AllAnswerable(service: Service, narrow: real -> real, dim: nat, chunks: seq<seq<Text>>, outs: seq<seq<Vector>>)
    requires |outs| == |chunks|
    requires forall c :: 0 <= c < |outs| ==> Answered(service, narrow, dim, chunks[c], outs[c])
    ensures forall chunk :: chunk in chunks ==> Answerable(service, narrow, dim, chunk)
  {
    forall chunk | chunk in chunks
      ensures Answerable(service, narrow, dim, chunk)
    {
      var c :| 0 <= c < |chunks| && chunks[c] == chunk;
      assert Answered(service, narrow, dim, chunk, outs[c]);
    }
  }

  lemma {:induction false} FlattenEnd<T>(parts: seq<seq<T>>, last: seq<T>)
    ensures Flatten(parts + [last]) == Flatten(parts) + last
  {
    if parts == [] {
      assert Flatten([last]) == last + Flatten<T>([]);
    } else {
      FlattenEnd(parts[1..], last);
      assert (parts + [last])[1..] == parts[1..] + [last];
    }
  }

  // What it means.

  /** A conforming service: every non-empty request is answered with one entry per text, in any order,
    * the entry with index `i` carrying the embedding of text `i`. */
  ghost predicate Conforms(service: Service, embed: Text -> Vector, dim: nat) {
    forall chunk :: chunk != [] ==>
      && service(chunk).Some? && IsPermutation(service(chunk).value, |chunk|)
      && forall k :: 0 <= k < |chunk| ==>
           var item := service(chunk).value[k];
           item.embedding == embed(chunk[item.index]) && |item.embedding| == dim
  }

  function Map(narrow: real -> real, embed: Text -> Vector, texts: seq<Text>): seq<Vector> {
    seq(|texts|, i requires 0 <= i < |texts| => Narrow(narrow, embed(texts[i])))
  }

  /** Position by position and number by number. */
  lemma MapIs(narrow: real -> real, embed: Text -> Vector, texts: seq<Text>)
    ensures |Map(narrow, embed, texts)| == |texts|
    ensures forall i :: 0 <= i < |texts| ==>
              && |Map(narrow, embed, texts)[i]| == |embed(texts[i])|
              && forall j :: 0 <= j < |embed(texts[i])| ==>
                   Map(narrow, embed, texts)[i][j] == narrow(embed(texts[i])[j])
  {
  }

  lemma ChunkIsMapped(service: Service, narrow: real -> real, embed: Text -> Vector, dim: nat, chunk: seq<Text>)
    requires Conforms(service, embed, dim) && dim > 0 && chunk != []
    ensures Answered(service, narrow, dim, chunk, Map(narrow, embed, chunk))
    ensures forall out :: Answered(service, narrow, dim, chunk, out) ==> out == Map(narrow, embed, chunk)
  {
    var items, mapped := service(chunk).value, Map(narrow, embed, chunk);
    assert Reassembles(narrow, items, mapped);
    forall i | 0 <= i < |mapped|
      ensures |mapped[i]| == dim
    {
      EveryIndexOccurs(items, |chunk|, i);
      var k :| 0 <= k < |items| && items[k].index == i;
      assert |items[k].embedding| == dim;
    }
    forall out | Answered(service, narrow, dim, chunk, out)
      ensures out == mapped
    {
      ReassemblyIsUnique(narrow, items, out, mapped);
    }
  }

  lemma {:induction false} ChunksAreNotEmpty(texts: seq<Text>, size: nat)
    requires size > 0
    ensures forall c :: 0 <= c < |Chunks(texts, size)| ==> 0 < |Chunks(texts, size)[c]| <= size
    ensures Flatten(Chunks(texts, size)) == texts
    decreases |texts|
  {
    if texts == [] {
    } else if |texts| <= size {
      assert Flatten([texts]) == texts + Flatten<Text>([]);
    } else {
      ChunksAreNotEmpty(texts[size..], size);
      var rest := Chunks(texts[size..], size);
      assert ([texts[..size]] + rest)[1..] == rest;
    }
  }

  /** Every chunk but the last is full. */
  lemma {:induction false} ChunksAreFull(texts: seq<Text>, size: nat, c: nat)
    requires size > 0 && c + 1 < |Chunks(texts, size)|
    ensures |Chunks(texts, size)[c]| == size
    decreases |texts|
  {
    if c > 0 {
      ChunksAreFull(texts[size..], size, c - 1);
    }
  }

  lemma {:induction false} FlattenMapped(narrow: real -> real, embed: Text -> Vector,
                                         chunks: seq<seq<Text>>, outs: seq<seq<Vector>>)
    requires |outs| == |chunks| && forall c :: 0 <= c < |outs| ==> outs[c] == Map(narrow, embed, chunks[c])
    ensures Flatten(outs) == Map(narrow, embed, Flatten(chunks))
  {
    if outs != [] {
      FlattenMapped(narrow, embed, chunks[1..], outs[1..]);
      assert Map(narrow, embed, chunks[0] + Flatten(chunks[1..]))
          == Map(narrow, embed, chunks[0]) + Map(narrow, embed, Flatten(chunks[1..]));
    }
  }

  /** With a conforming service the call succeeds and yields one vector per text, in input order,
    * whatever the chunk size and whatever the order of the entries in the responses. */
  lemma BatchIsTheMap(service: Service, narrow: real -> real, embed: Text -> Vector, dim: nat,
                      texts: seq<Text>, size: nat, outs: seq<seq<Vector>>)
    requires Conforms(service, embed, dim) && dim > 0 && size > 0
    ensures forall chunk :: chunk in Chunks(texts, size) ==> Answerable(service, narrow, dim, chunk)
    ensures (&& |outs| == |Chunks(texts, size)|
             && forall c :: 0 <= c < |outs| ==> Answered(service, narrow, dim, Chunks(texts, size)[c], outs[c])) ==>
              Flatten(outs) == Map(narrow, embed, texts)
  {
    var chunks := Chunks(texts, size);
    ChunksAreNotEmpty(texts, size);
    forall chunk | chunk in chunks
      ensures Answerable(service, narrow, dim, chunk)
      ensures forall out :: Answered(service, narrow, dim, chunk, out) ==> out == Map(narrow, embed, chunk)
    {
      ChunkIsMapped(service, narrow, embed, dim, chunk);
    }
    if |outs| == |chunks| && forall c :: 0 <= c < |outs| ==> Answered(service, narrow, dim, chunks[c], outs[c]) {
      forall c | 0 <= c < |outs|
        ensures outs[c] == Map(narrow, embed, chunks[c])
      {
        assert chunks[c] in chunks;
      }
      FlattenMapped(narrow, embed, chunks, outs);
    }
  }
}
