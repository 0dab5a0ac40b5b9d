/** Sorting numbers in ascending order. */
module Sorting {

  predicate Ascending(s: seq<int>) { forall i, j :: 0 <= i < j < |s| ==> s[i] <= s[j] }

  predicate Distinct(s: seq<int>) { forall i, j :: 0 <= i < j < |s| ==> s[i] != s[j] }

  function Insert(s: seq<int>, x: int): (r: seq<int>)
    requires Ascending(s)
    ensures Ascending(r) && |r| == |s| + 1 && forall y :: y in r <==> y in s || y == x
  {
    if s == [] then [x]
    else if x <= s[0] then [x] + s
    else
      var rest := Insert(s[1..], x);
      assert forall i :: 0 <= i < |rest| ==> rest[i] in rest;
      [s[0]] + rest
  }

  lemma {:induction false} InsertDistinct(s: seq<int>, x: int)
    requires Ascending(s) && Distinct(s) && x !in s
    ensures Distinct(Insert(s, x))
  {
    if s != [] && x > s[0] {
      InsertDistinct(s[1..], x);
      var rest := Insert(s[1..], x);
      forall j | 0 <= j < |rest| ensures rest[j] != s[0] { assert rest[j] in rest; }
    }
  }

  lemma DistinctAppend(s: seq<int>, x: int)
    requires Distinct(s) && x !in s
    ensures Distinct(s + [x])
  {}

  /** Array.prototype.sort by number. */
  function Sorted(s: seq<int>): (r: seq<int>)
    ensures Ascending(r) && |r| == |s| && forall y :: y in r <==> y in s
  {
    if s == [] then [] else Insert(Sorted(s[1..]), s[0])
  }

  lemma {:induction false} SortedDistinct(s: seq<int>)
    requires Distinct(s)
    ensures Distinct(Sorted(s))
  {
    if s != [] {
      SortedDistinct(s[1..]);
      InsertDistinct(Sorted(s[1..]), s[0]);
    }
  }
}
