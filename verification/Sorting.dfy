/** Python's `sorted`, as an insertion sort by a total order. */
module Sorting {

  ghost predicate TotalOrder<T(!new)>(leq: (T, T) -> bool) {
    && (forall a, b :: leq(a, b) || leq(b, a))
    && forall a, b, c :: leq(a, b) && leq(b, c) ==> leq(a, c)
  }

  ghost predicate Ascending<T>(leq: (T, T) -> bool, s: seq<T>) {
    forall i, j | 0 <= i <= j < |s| :: leq(s[i], s[j])
  }

  function Insert<T>(leq: (T, T) -> bool, x: T, s: seq<T>): seq<T> {
    if s == [] || leq(x, s[0]) then [x] + s else [s[0]] + Insert(leq, x, s[1..])
  }

  function Sort<T>(leq: (T, T) -> bool, s: seq<T>): seq<T> {
    if s == [] then [] else Insert(leq, s[0], Sort(leq, s[1..]))
  }

  lemma {:induction false} InsertKeeps<T(!new)>(leq: (T, T) -> bool, x: T, s: seq<T>)
    requires TotalOrder(leq) && Ascending(leq, s)
    ensures Ascending(leq, Insert(leq, x, s)) && multiset(Insert(leq, x, s)) == multiset(s) + multiset{x}
  {
    var r := Insert(leq, x, s);
    if s == [] || leq(x, s[0]) {
      assert forall i | 0 < i < |r| :: r[i] == s[i - 1];
    } else {
      var rest := Insert(leq, x, s[1..]);
      InsertKeeps(leq, x, s[1..]);
      assert s == [s[0]] + s[1..];
      forall i | 0 <= i < |rest| ensures leq(s[0], rest[i]) {
        assert rest[i] in multiset(rest);
      }
    }
  }

  /** The result is ascending and holds exactly the same elements. */
  lemma {:induction false} SortSorts<T(!new)>(leq: (T, T) -> bool, s: seq<T>)
    requires TotalOrder(leq)
    ensures Ascending(leq, Sort(leq, s)) && multiset(Sort(leq, s)) == multiset(s) && |Sort(leq, s)| == |s|
  {
    SortLength(leq, s);
    if s != [] {
      SortSorts(leq, s[1..]);
      InsertKeeps(leq, s[0], Sort(leq, s[1..]));
      assert s == [s[0]] + s[1..];
    }
  }

  lemma {:induction false} InsertLength<T>(leq: (T, T) -> bool, x: T, s: seq<T>)
    ensures |Insert(leq, x, s)| == |s| + 1
  {
    if s != [] && !leq(x, s[0]) {
      InsertLength(leq, x, s[1..]);
    }
  }

  lemma {:induction false} SortLength<T>(leq: (T, T) -> bool, s: seq<T>)
    ensures |Sort(leq, s)| == |s|
  {
    if s != [] {
      SortLength(leq, s[1..]);
      InsertLength(leq, s[0], Sort(leq, s[1..]));
    }
  }
}
