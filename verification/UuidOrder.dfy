/** Rows in ascending uuid order, as `ORDER BY uuid` and a sorted list of uuids give them. */
module UuidOrder {
  import opened PropertyGraph

  predicate IsMin(s: set<Uuid>, r: Uuid) {
    r in s && forall x | x in s :: r <= x
  }

  lemma MinExists(s: set<Uuid>)
    requires s != {}
    ensures exists r :: IsMin(s, r)
  {
    var x :| x in s;
    if s == {x} {
      assert IsMin(s, x);
    } else {
      MinExists(s - {x});
      var r :| IsMin(s - {x}, r);
      var least := if x <= r then x else r;
      forall y | y in s
        ensures least <= y
      {
        assert y == x || y in s - {x};
      }
      assert IsMin(s, least);
    }
  }

  function MinOf(s: set<Uuid>): (r: Uuid)
    requires s != {}
    ensures IsMin(s, r)
  {
    MinExists(s);
    var r :| r in s && IsMin(s, r);
    r
  }

  /** The set in ascending uuid order. */
  function Sorted(s: set<Uuid>): (r: seq<Uuid>)
    ensures |r| == |s| && forall u :: u in r <==> u in s
    ensures forall i, j :: 0 <= i < j < |r| ==> r[i] < r[j]
  {
    if s == {} then [] else [MinOf(s)] + Sorted(s - {MinOf(s)})
  }
}
