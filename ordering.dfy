/** `OrderBy(key)`: a stable sort of a sequence by a string key, in ordinal
    order. Elements with equal keys keep their relative order. */
module Ordering {
  import opened Text

  predicate SortedBy<T>(s: seq<T>, key: T -> string) {
    forall i :: 0 <= i < |s| - 1 ==> OrdinalLessEq(key(s[i]), key(s[i + 1]))
  }

  /** Inserts `x` in front of the first element whose key is not below it. */
  function Insert<T>(x: T, s: seq<T>, key: T -> string): (r: seq<T>)
    ensures multiset(r) == multiset(s) + multiset{x}
    ensures r[0] == x || (s != [] && r[0] == s[0])
    ensures SortedBy(s, key) ==> SortedBy(r, key)
  {
    if s == [] then [x]
    else if OrdinalLessEq(key(x), key(s[0])) then [x] + s
    else
      var tail := Insert(x, s[1..], key);
      OrdinalTotal(key(x), key(s[0]));
      assert s == [s[0]] + s[1..];
      [s[0]] + tail
  }

  /** Sorts by inserting each element in front of the sorted rest, which
      keeps equal keys in their original order. */
  function SortBy<T>(s: seq<T>, key: T -> string): (r: seq<T>)
    ensures multiset(r) == multiset(s)
    ensures SortedBy(r, key)
  {
    if s == [] then []
    else
      assert s == [s[0]] + s[1..];
      Insert(s[0], SortBy(s[1..], key), key)
  }

  /** Sorting neither adds nor drops elements. */
  lemma SortByMembers<T>(s: seq<T>, key: T -> string, x: T)
    ensures x in SortBy(s, key) <==> x in s
  {
    assert x in SortBy(s, key) <==> x in multiset(SortBy(s, key));
  }
}
