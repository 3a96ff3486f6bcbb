/** Removing balanced template and file-link markup: the bracket scan with its stack, the merge of the
  * spans it finds, and the splice - against matched pairs defined without any stack. */
module WikiMarkup {

  /** `{{ }}` or `[[ ]]`: the opener and the closer are each one character, doubled. */
  datatype Brackets = Brackets(open: char, close: char)

  const TEMPLATE := Brackets('{', '}')
  const LINK := Brackets('[', ']')

  predicate Doubled(text: string, i: nat, c: char) {
    i + 1 < |text| && text[i] == c && text[i + 1] == c
  }

  /** A removable span of the text: from `start`, up to but not including `end`. */
  datatype Span = Span(start: nat, end: nat)

  predicate Covers(s: Span, i: int) {
    s.start <= i < s.end
  }

  predicate Covered(spans: seq<Span>, i: int) {
    exists s :: s in spans && Covers(s, i)
  }

  // Matched pairs.

  datatype Token = Open(at: nat) | Close(at: nat)

  /** The brackets of the text from `i` on, `depth` being open: a closer with nothing to close is
    * plain text. */
  function Tokens(b: Brackets, text: string, i: nat, depth: nat): seq<Token>
    decreases |text| - i
  {
    if i >= |text| then []
    else if Doubled(text, i, b.open) then [Open(i)] + Tokens(b, text, i + 2, depth + 1)
    else if Doubled(text, i, b.close) && depth > 0 then [Close(i)] + Tokens(b, text, i + 2, depth - 1)
    else Tokens(b, text, i + 1, depth)
  }

  /** Openers minus closers among the first `k` tokens. */
  function Height(ts: seq<Token>, k: nat): int
    requires k <= |ts|
  {
    if k == 0 then 0 else Height(ts, k - 1) + if ts[k - 1].Open? then 1 else -1
  }

  // What the tokens are.

  /** Position `p` is one of the two characters of some token. */
  ghost predicate Taken(ts: seq<Token>, p: nat) {
    exists t :: t in ts && t.at <= p < t.at + 2
  }

  /** Token `k` is where it says, its character doubled; a closer has something to close, `depth` being open
    * before the first token. */
  ghost predicate Reads(b: Brackets, text: string, ts: seq<Token>, depth: nat, k: nat)
    requires k < |ts|
  {
    var t := ts[k];
    && t.at + 1 < |text| && (k + 1 < |ts| ==> t.at + 2 <= ts[k + 1].at)
    && (t.Open? ==> text[t.at] == text[t.at + 1] == b.open)
    && (t.Close? ==> text[t.at] == text[t.at + 1] == b.close && depth + Height(ts, k) > 0)
  }

  /** The first `k` tokens are those before `p`, and leave nothing open. */
  ghost predicate NothingOpenAt(ts: seq<Token>, depth: nat, p: nat, k: nat) {
    && k <= |ts| && depth + Height(ts, k) == 0
    && (forall j :: 0 <= j < k ==> ts[j].at < p) && (forall j :: k <= j < |ts| ==> p < ts[j].at)
  }

  /** No bracket is overlooked: a doubled opener is a token or overlaps one, and so is a doubled closer unless
    * nothing is open there. */
  ghost predicate NotOverlooked(b: Brackets, text: string, ts: seq<Token>, depth: nat, p: nat) {
    p + 1 < |text| && !Taken(ts, p) ==>
      && !(text[p] == text[p + 1] == b.open)
      && (text[p] == text[p + 1] == b.close ==> exists k :: NothingOpenAt(ts, depth, p, k))
  }

  /** Where both readings are possible the opener goes first. */
  ghost predicate OpenerFirst(b: Brackets, ts: seq<Token>) {
    b.open == b.close ==> forall t :: t in ts ==> t.Open?
  }

  lemma {:induction false} HeightAfter(t: Token, ts: seq<Token>, k: nat)
    requires k <= |ts|
    ensures Height([t] + ts, k + 1) == Height(ts, k) + if t.Open? then 1 else -1
  {
    if k > 0 {
      HeightAfter(t, ts, k - 1);
    } else {
      assert Height([t] + ts, 0) == 0;
    }
  }

  ghost predicate TokensFrom(b: Brackets, text: string, i: nat, depth: nat, ts: seq<Token>) {
    && (forall t <- ts :: i <= t.at)
    && (forall k :: 0 <= k < |ts| ==> Reads(b, text, ts, depth, k))
    && (forall p: nat :: i <= p ==> NotOverlooked(b, text, ts, depth, p))
    && OpenerFirst(b, ts)
  }

  /** One token more in front. */
  lemma TokenInFront(b: Brackets, text: string, i: nat, depth: nat, t: Token, rest: seq<Token>, depth': nat)
    requires t.at == i && i + 1 < |text| && TokensFrom(b, text, i + 2, depth', rest)
    requires t.Open? ==> text[i] == text[i + 1] == b.open && depth' == depth + 1
    requires t.Close? ==> text[i] == text[i + 1] == b.close != b.open && depth > 0 && depth' == depth - 1
    ensures TokensFrom(b, text, i, depth, [t] + rest)
  {
    var ts := [t] + rest;
    forall k | 0 <= k < |ts|
      ensures Reads(b, text, ts, depth, k)
    {
      if k > 0 {
        HeightAfter(t, rest, k - 1);
        assert Reads(b, text, rest, depth', k - 1);
      } else if rest != [] {
        assert rest[0] in rest;
      }
    }
    forall p: nat | i <= p
      ensures NotOverlooked(b, text, ts, depth, p)
    {
      StillNotOverlooked(b, text, i, depth, t, rest, depth', p);
    }
    assert forall x :: x in ts <==> x == t || x in rest;
  }

  lemma StillNotOverlooked(b: Brackets, text: string, i: nat, depth: nat, t: Token, rest: seq<Token>, depth': nat,
                           p: nat)
    requires t.at == i <= p && (i + 2 <= p ==> NotOverlooked(b, text, rest, depth', p))
    requires depth' == depth + if t.Open? then 1 else -1
    ensures NotOverlooked(b, text, [t] + rest, depth, p)
  {
    var ts := [t] + rest;
    assert t in ts;
    if p + 1 < |text| && !Taken(ts, p) {
      assert i + 2 <= p;
      assert !Taken(rest, p) by {
        if x :| x in rest && x.at <= p < x.at + 2 {
          assert x in ts;
        }
      }
      if k: nat :| NothingOpenAt(rest, depth', p, k) {
        HeightAfter(t, rest, k);
        assert NothingOpenAt(ts, depth, p, k + 1);
      }
    }
  }

  /** No token at this position. */
  lemma NoTokenHere(b: Brackets, text: string, i: nat, depth: nat, rest: seq<Token>)
    requires TokensFrom(b, text, i + 1, depth, rest)
    requires !Doubled(text, i, b.open) && (Doubled(text, i, b.close) ==> depth == 0)
    ensures TokensFrom(b, text, i, depth, rest)
  {
    if Doubled(text, i, b.close) {
      assert Height(rest, 0) == 0;
      assert forall j :: 0 <= j < |rest| ==> rest[j] in rest;
      assert NothingOpenAt(rest, depth, i, 0);
    }
  }

  /** The tokens of a text, without the scan: they are in place, none overlaps another, a closer always has
    * something to close, and nothing that could be one is overlooked. */
  lemma {:induction false} TokensAre(b: Brackets, text: string, i: nat, depth: nat)
    ensures TokensFrom(b, text, i, depth, Tokens(b, text, i, depth))
    decreases |text| - i
  {
    if i >= |text| {
    } else if Doubled(text, i, b.open) {
      TokensAre(b, text, i + 2, depth + 1);
      TokenInFront(b, text, i, depth, Open(i), Tokens(b, text, i + 2, depth + 1), depth + 1);
    } else if Doubled(text, i, b.close) && depth > 0 {
      TokensAre(b, text, i + 2, depth - 1);
      TokenInFront(b, text, i, depth, Close(i), Tokens(b, text, i + 2, depth - 1), depth - 1);
    } else {
      TokensAre(b, text, i + 1, depth);
      NoTokenHere(b, text, i, depth, Tokens(b, text, i + 1, depth));
    }
  }

  /** Token `a` opens what token `c` closes: between them nothing is left open and nothing closes
    * what was opened before. */
  ghost predicate Pair(ts: seq<Token>, a: nat, c: nat) {
    && a < c < |ts| && ts[a].Open? && ts[c].Close?
    && Height(ts, c) == Height(ts, a + 1)
    && forall m: nat :: a < m <= c ==> Height(ts, m) >= Height(ts, a + 1)
  }

  function SpanOf(ts: seq<Token>, a: nat, c: nat): Span
    requires a < |ts| && c < |ts|
  {
    Span(ts[a].at, ts[c].at + 2)
  }

  /** The spans of the pairs whose opener is marked for removal. */
  ghost predicate IsRemoved(ts: seq<Token>, marked: nat -> bool, s: Span) {
    exists a: nat, c: nat :: Pair(ts, a, c) && marked(ts[a].at) && s == SpanOf(ts, a, c)
  }

  /** Two pairs are nested or disjoint. */
  lemma PairsAreLaminar(ts: seq<Token>, a: nat, c: nat, d: nat, e: nat)
    requires Pair(ts, a, c) && Pair(ts, d, e) && a < d
    ensures c < d || e < c
  {
    assert Height(ts, c + 1) == Height(ts, a + 1) - 1;
    assert Height(ts, d + 1) == Height(ts, d) + 1;
    var m, n := if d < c then d else c, if d < c < e then c + 1 else d + 1;
    assert Height(ts, m) >= Height(ts, a + 1);
    assert Height(ts, n) >= Height(ts, d + 1);
  }

  // Characters that survive.

  /** The first `n` characters, without those in a span. */
  function Kept(text: string, spans: seq<Span>, n: nat): string
    requires n <= |text|
  {
    if n == 0 then ""
    else Kept(text, spans, n - 1) + if Covered(spans, n - 1) then "" else [text[n - 1]]
  }

  lemma {:induction false} KeptSlice(text: string, spans: seq<Span>, from: nat, to: nat)
    requires from <= to <= |text| && forall i :: from <= i < to ==> !Covered(spans, i)
    ensures Kept(text, spans, to) == Kept(text, spans, from) + text[from..to]
  {
    if from < to {
      KeptSlice(text, spans, from, to - 1);
      assert text[from..to] == text[from..to - 1] + [text[to - 1]];
    }
  }

  lemma {:induction false} KeptSkip(text: string, spans: seq<Span>, from: nat, to: nat)
    requires from <= to <= |text| && forall i :: from <= i < to ==> Covered(spans, i)
    ensures Kept(text, spans, to) == Kept(text, spans, from)
  {
    if from < to {
      KeptSkip(text, spans, from, to - 1);
    }
  }

  lemma {:induction false} KeptSame(text: string, spans: seq<Span>, others: seq<Span>, n: nat)
    requires n <= |text| && forall i :: 0 <= i < n ==> (Covered(spans, i) <==> Covered(others, i))
    ensures Kept(text, spans, n) == Kept(text, others, n)
  {
    if n > 0 {
      KeptSame(text, spans, others, n - 1);
    }
  }

  // The scan.

  /** The tokens sit inside the text, in order, without overlap. */
  ghost predicate Placed(text: string, ts: seq<Token>) {
    && (forall k :: 0 <= k < |ts| ==> ts[k].at + 2 <= |text|)
    && (forall j, k :: 0 <= j < k < |ts| ==> ts[j].at + 2 <= ts[k].at)
  }

  /** The stack is the openers not yet closed: opener number `j` was read at height `j`, and nothing
    * after it has come back down to that height. */
  ghost predicate StackOk(ts: seq<Token>, stack: seq<nat>) {
    && Height(ts, |ts|) == |stack|
    && (forall j :: 0 <= j < |stack| ==> stack[j] < |ts| && ts[stack[j]].Open? && Height(ts, stack[j]) == j)
    && (forall j, m: nat :: 0 <= j < |stack| && stack[j] < m <= |ts| ==> Height(ts, m) > j)
  }

  lemma {:induction false} HeightOfPrefix(ts: seq<Token>, t: Token, k: nat)
    requires k <= |ts|
    ensures Height(ts + [t], k) == Height(ts, k)
  {
    if k > 0 {
      HeightOfPrefix(ts, t, k - 1);
    }
  }

  lemma Heights(ts: seq<Token>, t: Token)
    ensures forall k :: 0 <= k <= |ts| ==> Height(ts + [t], k) == Height(ts, k)
    ensures Height(ts + [t], |ts| + 1) == Height(ts, |ts|) + if t.Open? then 1 else -1
  {
    forall k | 0 <= k <= |ts|
      ensures Height(ts + [t], k) == Height(ts, k)
    {
      HeightOfPrefix(ts, t, k);
    }
  }

  lemma OldPairs(ts: seq<Token>, t: Token, a: nat, c: nat)
    requires c < |ts|
    ensures Pair(ts + [t], a, c) <==> Pair(ts, a, c)
  {
    Heights(ts, t);
  }

  lemma Pushed(ts: seq<Token>, stack: seq<nat>, at: nat)
    requires StackOk(ts, stack)
    ensures StackOk(ts + [Open(at)], stack + [|ts|])
  {
    Heights(ts, Open(at));
  }

  /** A closer pops exactly the opener it pairs with. */
  lemma Popped(ts: seq<Token>, stack: seq<nat>, at: nat)
    requires StackOk(ts, stack) && stack != []
    ensures StackOk(ts + [Close(at)], stack[..|stack| - 1])
    ensures forall a: nat :: Pair(ts + [Close(at)], a, |ts|) <==> a == stack[|stack| - 1]
  {
    var more, top := ts + [Close(at)], stack[|stack| - 1];
    Heights(ts, Close(at));
    assert Height(more, top + 1) == |stack|;
    forall a: nat | a != top
      ensures !Pair(more, a, |ts|)
    {
      if a < |ts| && ts[a].Open? {
        assert Height(more, a + 1) == Height(more, a) + 1;
        assert Height(more, top) == |stack| - 1;
        assert a > top ==> Height(ts, a) > |stack| - 1;
      }
    }
  }

  /** The spans found so far are exactly those of the marked pairs read so far. */
  ghost predicate Recorded(ts: seq<Token>, marked: nat -> bool, spans: seq<Span>) {
    && (forall s :: s in spans <==> IsRemoved(ts, marked, s))
    && (forall i, j :: 0 <= i < j < |spans| ==> spans[i] != spans[j])
  }

  lemma OpenRecordsNothing(ts: seq<Token>, marked: nat -> bool, spans: seq<Span>, at: nat)
    requires Recorded(ts, marked, spans)
    ensures Recorded(ts + [Open(at)], marked, spans)
  {
    var more := ts + [Open(at)];
    forall s
      ensures IsRemoved(more, marked, s) <==> IsRemoved(ts, marked, s)
    {
      RemovedStays(ts, Open(at), marked, s);
      if a: nat, c: nat :| Pair(more, a, c) && marked(more[a].at) && s == SpanOf(more, a, c) {
        assert c < |ts|;
        OldPairs(ts, Open(at), a, c);
        assert Pair(ts, a, c) && s == SpanOf(ts, a, c);
      }
    }
  }

  lemma RemovedStays(ts: seq<Token>, t: Token, marked: nat -> bool, s: Span)
    ensures IsRemoved(ts, marked, s) ==> IsRemoved(ts + [t], marked, s)
  {
    if a: nat, c: nat :| Pair(ts, a, c) && marked(ts[a].at) && s == SpanOf(ts, a, c) {
      OldPairs(ts, t, a, c);
      assert SpanOf(ts + [t], a, c) == s;
    }
  }

  lemma CloseRecords(text: string, ts: seq<Token>, marked: nat -> bool, spans: seq<Span>, stack: seq<nat>, at: nat)
    requires Recorded(ts, marked, spans) && StackOk(ts, stack) && stack != []
    requires Placed(text, ts + [Close(at)])
    ensures var top := stack[|stack| - 1];
            Recorded(ts + [Close(at)], marked,
                     if marked(ts[top].at) then spans + [Span(ts[top].at, at + 2)] else spans)
  {
    var more, top := ts + [Close(at)], stack[|stack| - 1];
    var found := Span(ts[top].at, at + 2);
    Popped(ts, stack, at);
    assert Pair(more, top, |ts|) && SpanOf(more, top, |ts|) == found;
    forall s
      ensures IsRemoved(more, marked, s) <==> IsRemoved(ts, marked, s) || (marked(ts[top].at) && s == found)
    {
      RemovedStays(ts, Close(at), marked, s);
      if a: nat, c: nat :| Pair(more, a, c) && marked(more[a].at) && s == SpanOf(more, a, c) {
        if c < |ts| {
          OldPairs(ts, Close(at), a, c);
          assert s == SpanOf(ts, a, c);
        }
      }
    }
    forall a: nat, c: nat | Pair(ts, a, c)
      ensures SpanOf(ts, a, c) != found
    {
      assert more[c].at + 2 <= more[|ts|].at;
    }
    assert !IsRemoved(ts, marked, found);
  }

  /** What the scan keeps; `ts` is the tokens read up to `i`. */
  ghost predicate Scanned(b: Brackets, text: string, marked: nat -> bool, i: nat,
                          ts: seq<Token>, stack: seq<nat>, spans: seq<Span>) {
    && i <= |text|
    && Tokens(b, text, 0, 0) == ts + Tokens(b, text, i, |stack|)
    && Placed(text, ts) && (forall k :: 0 <= k < |ts| ==> ts[k].at + 2 <= i)
    && StackOk(ts, stack) && Recorded(ts, marked, spans)
  }

  lemma ReadOpen(b: Brackets, text: string, marked: nat -> bool, i: nat,
                 ts: seq<Token>, stack: seq<nat>, spans: seq<Span>)
    requires Scanned(b, text, marked, i, ts, stack, spans) && Doubled(text, i, b.open)
    ensures Scanned(b, text, marked, i + 2, ts + [Open(i)], stack + [|ts|], spans)
  {
    Pushed(ts, stack, i);
    OpenRecordsNothing(ts, marked, spans, i);
    assert ts + Tokens(b, text, i, |stack|) == ts + [Open(i)] + Tokens(b, text, i + 2, |stack| + 1);
  }

  lemma ReadClose(b: Brackets, text: string, marked: nat -> bool, i: nat,
                  ts: seq<Token>, stack: seq<nat>, spans: seq<Span>)
    requires Scanned(b, text, marked, i, ts, stack, spans) && stack != []
    requires !Doubled(text, i, b.open) && Doubled(text, i, b.close)
    ensures var top := stack[|stack| - 1];
            Scanned(b, text, marked, i + 2, ts + [Close(i)], stack[..|stack| - 1],
                    if marked(ts[top].at) then spans + [Span(ts[top].at, i + 2)] else spans)
  {
    Popped(ts, stack, i);
    CloseRecords(text, ts, marked, spans, stack, i);
    assert ts + Tokens(b, text, i, |stack|) == ts + [Close(i)] + Tokens(b, text, i + 2, |stack| - 1);
  }

  /** The while-loop over the text. The stack holds the openers' positions; `openers` says which
    * tokens they are. */
  method Scan(b: Brackets, text: string, marked: nat -> bool) returns (spans: seq<Span>)
    ensures Recorded(Tokens(b, text, 0, 0), marked, spans)
    ensures Placed(text, Tokens(b, text, 0, 0))
  {
    var stack: seq<nat> := [];
    spans := [];
    var i := 0;
    ghost var ts: seq<Token>, openers: seq<nat> := [], [];
    while i < |text|
      invariant Scanned(b, text, marked, i, ts, openers, spans)
      invariant |stack| == |openers| && forall j :: 0 <= j < |stack| ==> stack[j] == ts[openers[j]].at
      decreases |text| - i
    {
      if Doubled(text, i, b.open) {
        ReadOpen(b, text, marked, i, ts, openers, spans);
        stack := stack + [i];
        ts, openers := ts + [Open(i)], openers + [|ts|];
        i := i + 2;
        continue;
      }
      if Doubled(text, i, b.close) && stack != [] {
        ReadClose(b, text, marked, i, ts, openers, spans);
        var start := stack[|stack| - 1];
        stack := stack[..|stack| - 1];
        if marked(start) {
          spans := spans + [Span(start, i + 2)];
        }
        ts, openers := ts + [Close(i)], openers[..|openers| - 1];
        i := i + 2;
        continue;
      }
      i := i + 1;
    }
    assert ts + [] == ts;
  }

  // The merge.

  predicate Ascending(spans: seq<Span>) {
    forall i, j :: 0 <= i < j < |spans| ==> spans[i].start < spans[j].start
  }

  /** Any two spans that meet are nested, and no two start together. */
  ghost predicate Laminar(spans: seq<Span>) {
    && (forall s :: s in spans ==> s.start < s.end)
    && (forall s, t :: s in spans && t in spans && s.start < t.start ==> s.end <= t.start || t.end <= s.end)
    && (forall s, t :: s in spans && t in spans && s.start == t.start ==> s == t)
  }

  lemma RemovedIsLaminar(text: string, ts: seq<Token>, marked: nat -> bool, spans: seq<Span>)
    requires Placed(text, ts) && Recorded(ts, marked, spans)
    ensures Laminar(spans) && forall s :: s in spans ==> s.end <= |text|
  {
    forall s | s in spans
      ensures s.start < s.end <= |text|
    {
      var a: nat, c: nat :| Pair(ts, a, c) && marked(ts[a].at) && s == SpanOf(ts, a, c);
    }
    forall s, t | s in spans && t in spans && s.start <= t.start
      ensures if s.start == t.start then s == t else s.end <= t.start || t.end <= s.end
    {
      var a: nat, c: nat :| Pair(ts, a, c) && marked(ts[a].at) && s == SpanOf(ts, a, c);
      var d: nat, e: nat :| Pair(ts, d, e) && marked(ts[d].at) && t == SpanOf(ts, d, e);
      if s.start == t.start {
        assert a == d;
        SameOpener(ts, a, c, e);
      } else {
        assert a < d;
        PairsAreLaminar(ts, a, c, d, e);
      }
    }
  }

  lemma SameOpener(ts: seq<Token>, a: nat, c: nat, e: nat)
    requires Pair(ts, a, c) && Pair(ts, a, e)
    ensures c == e
  {
    assert Height(ts, c + 1) == Height(ts, a + 1) - 1;
    assert Height(ts, e + 1) == Height(ts, a + 1) - 1;
    var m, n := if c < e then c + 1 else e, if e < c then e + 1 else c;
    assert Height(ts, m) >= Height(ts, a + 1) && Height(ts, n) >= Height(ts, a + 1);
  }

  predicate Starts(spans: set<Span>, s: Span) {
    s in spans && forall t | t in spans :: s.start <= t.start
  }

  lemma FirstExists(spans: set<Span>)
    requires spans != {}
    ensures exists s :: Starts(spans, s)
  {
    var s :| s in spans;
    if spans == {s} {
      assert Starts(spans, s);
    } else {
      FirstExists(spans - {s});
      var t :| Starts(spans - {s}, t);
      var first := if s.start <= t.start then s else t;
      forall x | x in spans
        ensures first.start <= x.start
      {
        assert x == s || x in spans - {s};
      }
      assert Starts(spans, first);
    }
  }

  predicate DistinctStarts(spans: set<Span>) {
    forall s, t | s in spans && t in spans :: s.start == t.start ==> s == t
  }

  /** The spans in order of their starts. */
  function Sort(spans: set<Span>): (r: seq<Span>)
    requires DistinctStarts(spans)
    ensures forall s :: s in r <==> s in spans
    ensures Ascending(r)
  {
    if spans == {} then []
    else
      FirstExists(spans);
      var s :| s in spans && Starts(spans, s);
      [s] + Sort(spans - {s})
  }

  ghost predicate Apart(merged: seq<Span>) {
    forall i, j :: 0 <= i < j < |merged| ==> merged[i].end <= merged[j].start
  }

  ghost predicate SomeOf(merged: seq<Span>, spans: seq<Span>) {
    forall s :: s in merged ==> s in spans
  }

  ghost predicate SameCover(merged: seq<Span>, spans: seq<Span>) {
    forall i: int :: Covered(merged, i) <==> Covered(spans, i)
  }

  /** Nothing in the list ends after its last span does. */
  ghost predicate LastEndsLast(merged: seq<Span>) {
    forall s :: s in merged ==> s.end <= merged[|merged| - 1].end
  }

  /** The merge loop: `extended` says that the branch for partly overlapping spans was taken. */
  method Merge(spans: seq<Span>) returns (merged: seq<Span>, ghost extended: bool)
    requires Laminar(spans) && Ascending(spans)
    ensures SomeOf(merged, spans) && Apart(merged) && SameCover(merged, spans)
    ensures !extended
  {
    merged, extended := [], false;
    for n := 0 to |spans|
      invariant SomeOf(merged, spans[..n]) && Apart(merged) && LastEndsLast(merged)
      invariant SameCover(merged, spans[..n]) && !extended
    {
      var s := spans[n];
      assert spans[..n + 1] == spans[..n] + [s];
      if merged != [] && s.start < merged[|merged| - 1].end {
        var last := merged[|merged| - 1];
        if s.end > last.end {
          merged := merged[|merged| - 1 := Span(last.start, s.end)];
          extended := true;
        }
        LastIsEarlier(spans, n, last);
        NestedStep(spans[..n], merged, s);
      } else {
        assert s in spans;
        ApartStep(spans[..n], merged, s);
        merged := merged + [s];
      }
    }
    assert spans[..|spans|] == spans;
  }

  lemma LastIsEarlier(spans: seq<Span>, n: nat, last: Span)
    requires Laminar(spans) && Ascending(spans) && n < |spans| && last in spans[..n] && spans[n].start < last.end
    ensures spans[n].end <= last.end && last.start < spans[n].start
  {
    var i :| 0 <= i < n && spans[i] == last;
    assert spans[n] in spans && last in spans;
  }

  lemma CoveredBy(spans: seq<Span>, s: Span, i: int)
    ensures Covered(spans + [s], i) <==> Covered(spans, i) || Covers(s, i)
  {
    if Covered(spans, i) {
      var t :| t in spans && Covers(t, i);
      assert t in spans + [s];
    }
    if Covers(s, i) {
      assert s in spans + [s];
    }
  }

  lemma NestedStep(spans: seq<Span>, merged: seq<Span>, s: Span)
    requires SomeOf(merged, spans) && SameCover(merged, spans) && merged != []
    requires merged[|merged| - 1].start <= s.start && s.end <= merged[|merged| - 1].end
    ensures SomeOf(merged, spans + [s]) && SameCover(merged, spans + [s])
  {
    var last := merged[|merged| - 1];
    assert last in merged;
    forall i: int
      ensures Covered(merged, i) <==> Covered(spans + [s], i)
    {
      CoveredBy(spans, s, i);
      assert Covers(s, i) ==> Covers(last, i);
    }
  }

  lemma ApartStep(spans: seq<Span>, merged: seq<Span>, s: Span)
    requires SomeOf(merged, spans) && Apart(merged) && SameCover(merged, spans) && LastEndsLast(merged)
    requires s.start < s.end && (merged != [] ==> merged[|merged| - 1].end <= s.start)
    ensures SomeOf(merged + [s], spans + [s]) && Apart(merged + [s]) && SameCover(merged + [s], spans + [s])
    ensures LastEndsLast(merged + [s])
  {
    forall i: int
      ensures Covered(merged + [s], i) <==> Covered(spans + [s], i)
    {
      CoveredBy(spans, s, i);
      CoveredBy(merged, s, i);
    }
  }

  // The splice.

  method Splice(text: string, merged: seq<Span>) returns (out: string)
    requires forall s :: s in merged ==> s.start < s.end <= |text|
    requires forall i, j :: 0 <= i < j < |merged| ==> merged[i].end <= merged[j].start
    ensures out == Kept(text, merged, |text|)
  {
    out := "";
    var pos := 0;
    for n := 0 to |merged|
      invariant pos == (if n == 0 then 0 else merged[n - 1].end) && pos <= |text|
      invariant out == Kept(text, merged, pos)
    {
      var s := merged[n];
      assert s in merged;
      assert n > 0 ==> merged[n - 1].end <= s.start;
      BetweenSpans(text, merged, n, pos);
      KeptSlice(text, merged, pos, s.start);
      KeptSkip(text, merged, s.start, s.end);
      out := out + text[pos..s.start];
      pos := s.end;
    }
    BetweenSpans(text, merged, |merged|, pos);
    KeptSlice(text, merged, pos, |text|);
    out := out + text[pos..];
    assert text[pos..] == text[pos..|text|];
  }

  lemma BetweenSpans(text: string, merged: seq<Span>, n: nat, pos: nat)
    requires n <= |merged| && pos == (if n == 0 then 0 else merged[n - 1].end)
    requires forall s :: s in merged ==> s.start < s.end <= |text|
    requires forall i, j :: 0 <= i < j < |merged| ==> merged[i].end <= merged[j].start
    ensures forall i :: pos <= i < (if n < |merged| then merged[n].start else |text|) ==> !Covered(merged, i)
    ensures n < |merged| ==> forall i :: merged[n].start <= i < merged[n].end ==> Covered(merged, i)
  {
    forall i, s | pos <= i < (if n < |merged| then merged[n].start else |text|) && s in merged
      ensures !Covers(s, i)
    {
      var k :| 0 <= k < |merged| && merged[k] == s;
      assert k < n ==> s.end <= pos;
    }
    if n < |merged| {
      assert merged[n] in merged;
    }
  }

  // The whole.

  /** The character is inside some matched pair whose opener is marked. */
  ghost predicate InMarkedPair(b: Brackets, text: string, marked: nat -> bool, i: int) {
    exists a: nat, c: nat :: Pair(Tokens(b, text, 0, 0), a, c) && marked(Tokens(b, text, 0, 0)[a].at)
                   && Covers(SpanOf(Tokens(b, text, 0, 0), a, c), i)
  }

  /** The text without the characters inside marked pairs: all others survive, in order. */
  ghost function Outside(b: Brackets, text: string, marked: nat -> bool, n: nat): string
    requires n <= |text|
  {
    if n == 0 then ""
    else Outside(b, text, marked, n - 1) + if InMarkedPair(b, text, marked, n - 1) then "" else [text[n - 1]]
  }

  /** The positions below `n` that are in no marked pair, in order. */
  ghost predicate Unmarked(b: Brackets, text: string, marked: nat -> bool, n: nat, at: seq<nat>) {
    && (forall i, j :: 0 <= i < j < |at| ==> at[i] < at[j])
    && forall p: nat :: p in at <==> p < n && !InMarkedPair(b, text, marked, p)
  }

  /** The characters of the text at those positions. */
  ghost predicate Spells(text: string, at: seq<nat>, out: string) {
    |out| == |at| && forall i :: 0 <= i < |at| ==> at[i] < |text| && out[i] == text[at[i]]
  }

  ghost function Survivors(b: Brackets, text: string, marked: nat -> bool, n: nat): seq<nat> {
    if n == 0 then []
    else Survivors(b, text, marked, n - 1) + if InMarkedPair(b, text, marked, n - 1) then [] else [n - 1]
  }

  lemma UnmarkedGrows(b: Brackets, text: string, marked: nat -> bool, n: nat, at: seq<nat>)
    requires Unmarked(b, text, marked, n, at)
    ensures Unmarked(b, text, marked, n + 1, if InMarkedPair(b, text, marked, n) then at else at + [n])
  {
    assert forall i :: 0 <= i < |at| ==> at[i] in at;
  }

  lemma {:induction false} SurvivorsUnmarked(b: Brackets, text: string, marked: nat -> bool, n: nat)
    ensures Unmarked(b, text, marked, n, Survivors(b, text, marked, n))
  {
    if n > 0 {
      var at := Survivors(b, text, marked, n - 1);
      SurvivorsUnmarked(b, text, marked, n - 1);
      UnmarkedGrows(b, text, marked, n - 1, at);
      assert at + [] == at;
    }
  }

  lemma SpellsMore(text: string, at: seq<nat>, out: string, p: nat)
    requires Spells(text, at, out) && p < |text|
    ensures Spells(text, at + [p], out + [text[p]])
  {
  }

  lemma {:induction false} SurvivorsSpell(b: Brackets, text: string, marked: nat -> bool, n: nat)
    requires n <= |text|
    ensures Spells(text, Survivors(b, text, marked, n), Outside(b, text, marked, n))
  {
    if n > 0 {
      var at, out := Survivors(b, text, marked, n - 1), Outside(b, text, marked, n - 1);
      SurvivorsSpell(b, text, marked, n - 1);
      SpellsMore(text, at, out, n - 1);
      assert at + [] == at && out + "" == out;
    }
  }

  /** What is left are the characters at exactly the positions that are in no marked pair, in order. */
  lemma SurvivorsAre(b: Brackets, text: string, marked: nat -> bool, n: nat)
    requires n <= |text|
    ensures exists at :: Unmarked(b, text, marked, n, at) && Spells(text, at, Outside(b, text, marked, n))
  {
    SurvivorsUnmarked(b, text, marked, n);
    SurvivorsSpell(b, text, marked, n);
  }

  lemma {:induction false} KeptIsOutside(b: Brackets, text: string, marked: nat -> bool, spans: seq<Span>, n: nat)
    requires n <= |text| && Recorded(Tokens(b, text, 0, 0), marked, spans)
    ensures Kept(text, spans, n) == Outside(b, text, marked, n)
  {
    if n > 0 {
      KeptIsOutside(b, text, marked, spans, n - 1);
      CoveredIsMarked(b, text, marked, spans, n - 1);
    }
  }

  lemma CoveredIsMarked(b: Brackets, text: string, marked: nat -> bool, spans: seq<Span>, i: int)
    requires Recorded(Tokens(b, text, 0, 0), marked, spans)
    ensures Covered(spans, i) <==> InMarkedPair(b, text, marked, i)
  {
    var ts := Tokens(b, text, 0, 0);
    if s :| s in spans && Covers(s, i) {
      var a: nat, c: nat :| Pair(ts, a, c) && marked(ts[a].at) && s == SpanOf(ts, a, c);
    }
    if a: nat, c: nat :| Pair(ts, a, c) && marked(ts[a].at) && Covers(SpanOf(ts, a, c), i) {
      assert IsRemoved(ts, marked, SpanOf(ts, a, c));
    }
  }

  lemma SortedKeeps(spans: seq<Span>, sorted: seq<Span>)
    requires Laminar(spans) && forall s :: s in sorted <==> s in spans
    ensures Laminar(sorted) && SameCover(sorted, spans)
  {
    forall i: int
      ensures Covered(sorted, i) <==> Covered(spans, i)
    {
      if Covered(sorted, i) {
        var s :| s in sorted && Covers(s, i);
        assert s in spans;
      }
      if Covered(spans, i) {
        var s :| s in spans && Covers(s, i);
        assert s in sorted;
      }
    }
  }

  lemma MergedFits(text: string, spans: seq<Span>, sorted: seq<Span>, merged: seq<Span>)
    requires Laminar(spans) && forall s :: s in spans ==> s.end <= |text|
    requires (forall s :: s in sorted <==> s in spans) && SomeOf(merged, sorted)
    ensures forall s :: s in merged ==> s.start < s.end <= |text|
  {
  }

  method Strip(b: Brackets, text: string, marked: nat -> bool) returns (out: string, ghost extended: bool)
    ensures out == Outside(b, text, marked, |text|) && !extended
  {
    var spans := Scan(b, text, marked);
    ghost var ts := Tokens(b, text, 0, 0);
    RemovedIsLaminar(text, ts, marked, spans);
    var sorted := Sort(set s | s in spans);
    SortedKeeps(spans, sorted);
    var merged;
    merged, extended := Merge(sorted);
    MergedFits(text, spans, sorted, merged);
    out := Splice(text, merged);
    KeptSame(text, merged, spans, |text|);
    KeptIsOutside(b, text, marked, spans, |text|);
  }

  method StripTemplates(text: string) returns (out: string)
    ensures out == Outside(Brackets('{', '}'), text, (_: nat) => true, |text|)
  {
    ghost var extended;
    out, extended := Strip(TEMPLATE, text, (_: nat) => true);
  }

  /** `isFileLink` is the pattern that recognises `[[File:`, `[[Image:` and `[[Category:` at a position. */
  method StripFileLinks(text: string, isFileLink: (string, nat) -> bool) returns (out: string)
    ensures out == Outside(Brackets('[', ']'), text, (i: nat) => isFileLink(text, i), |text|)
  {
    ghost var extended;
    out, extended := Strip(LINK, text, (i: nat) => isFileLink(text, i));
  }

  /** Text that has no matched pair survives whole, unmatched openers and all. */
  lemma {:induction false} UnmatchedSurvives(b: Brackets, text: string, marked: nat -> bool, n: nat)
    requires n <= |text| && forall a: nat, c: nat :: !Pair(Tokens(b, text, 0, 0), a, c)
    ensures Outside(b, text, marked, n) == text[..n]
  {
    if n > 0 {
      UnmatchedSurvives(b, text, marked, n - 1);
      assert text[..n] == text[..n - 1] + [text[n - 1]];
    }
  }
}
