/** sort.Slice by an integer key: some ordered permutation of the input. */
module Sorting {
  ghost predicate OrderedBy<T>(data: seq<T>, key: T -> int)
  {
    forall i, j :: 0 <= i < j < |data| ==> key(data[i]) <= key(data[j])
  }

  function InsertBy<T>(sorted: seq<T>, key: T -> int, x: T): seq<T>
  {
    if sorted == [] || key(sorted[|sorted| - 1]) <= key(x) then sorted + [x]
    else InsertBy(sorted[..|sorted| - 1], key, x) + [sorted[|sorted| - 1]]
  }

  function SortBy<T>(data: seq<T>, key: T -> int): seq<T>
  {
    if data == [] then [] else InsertBy(SortBy(data[..|data| - 1], key), key, data[|data| - 1])
  }

  lemma LastOf<T>(data: seq<T>)
    requires data != []
    ensures multiset(data) == multiset(data[..|data| - 1]) + multiset{data[|data| - 1]}
  {
    assert data == data[..|data| - 1] + [data[|data| - 1]];
  }

  lemma {:induction false} InsertKeepsAll<T>(sorted: seq<T>, key: T -> int, x: T)
    ensures multiset(InsertBy(sorted, key, x)) == multiset(sorted) + multiset{x}
  {
    if sorted != [] && key(sorted[|sorted| - 1]) > key(x) {
      InsertKeepsAll(sorted[..|sorted| - 1], key, x);
      LastOf(sorted);
    }
  }

  lemma {:induction false} InsertKeepsOrder<T>(sorted: seq<T>, key: T -> int, x: T)
    requires OrderedBy(sorted, key)
    ensures OrderedBy(InsertBy(sorted, key, x), key)
    ensures forall i :: 0 <= i < |InsertBy(sorted, key, x)| ==>
              key(InsertBy(sorted, key, x)[i]) <= key(x)
              || (sorted != [] && key(InsertBy(sorted, key, x)[i]) <= key(sorted[|sorted| - 1]))
  {
    if sorted != [] && key(sorted[|sorted| - 1]) > key(x) {
      var front, last := sorted[..|sorted| - 1], sorted[|sorted| - 1];
      InsertKeepsOrder(front, key, x);
      var inner := InsertBy(front, key, x);
      assert forall i :: 0 <= i < |inner| ==> key(inner[i]) <= key(last);
    }
  }

  lemma {:induction false} SortBySorts<T>(data: seq<T>, key: T -> int)
    ensures OrderedBy(SortBy(data, key), key)
    ensures multiset(SortBy(data, key)) == multiset(data)
    ensures |SortBy(data, key)| == |data|
  {
    if data != [] {
      var front, last := data[..|data| - 1], data[|data| - 1];
      SortBySorts(front, key);
      InsertKeepsOrder(SortBy(front, key), key, last);
      InsertKeepsAll(SortBy(front, key), key, last);
      LastOf(data);
    }
    assert |multiset(SortBy(data, key))| == |multiset(data)|;
  }
}
