/** Ordering a list by an integer key, as `sorted(by:)` and a sort descriptor do. */
module Sorting {

  /** No element has a larger key than one after it. */
  ghost predicate Ascending<T>(s: seq<T>, key: T -> int) {
    forall i, j :: 0 <= i < j < |s| ==> key(s[i]) <= key(s[j])
  }

  /** `x` placed into the ascending list `s` before the first element with a larger or equal key. */
  function Insert<T>(x: T, s: seq<T>, key: T -> int): (r: seq<T>)
    requires Ascending(s, key)
    ensures multiset(r) == multiset(s) + multiset{x}
    ensures forall e :: e in r ==> e == x || e in s
    ensures Ascending(r, key)
  {
    if s == [] then [x]
    else if key(x) <= key(s[0]) then
      ConsAscending(x, s, key);
      [x] + s
    else
      var rest := Insert(x, s[1..], key);
      assert s == [s[0]] + s[1..];
      HeadBelowRest(s, x, rest, key);
      ConsAscending(s[0], rest, key);
      [s[0]] + rest
  }

  /** An element whose key is at most the first key of an ascending list can be put in front of it. */
  lemma ConsAscending<T>(h: T, s: seq<T>, key: T -> int)
    requires Ascending(s, key)
    requires s != [] ==> key(h) <= key(s[0])
    ensures Ascending([h] + s, key)
  {
    var r := [h] + s;
    forall i, j | 0 <= i < j < |r| ensures key(r[i]) <= key(r[j]) {
      if i > 0 {
        assert r[i] == s[i - 1] && r[j] == s[j - 1];
      } else {
        assert r[j] == s[j - 1];
      }
    }
  }

  lemma HeadBelowRest<T>(s: seq<T>, x: T, rest: seq<T>, key: T -> int)
    requires s != [] && Ascending(s, key) && key(s[0]) < key(x)
    requires forall e :: e in rest ==> e == x || e in s[1..]
    ensures rest != [] ==> key(s[0]) <= key(rest[0])
  {
    if rest != [] && rest[0] != x {
      assert rest[0] in rest;
      var m :| 1 <= m < |s| && s[m] == rest[0];
    }
  }

  /** The elements of `s` reordered so that keys never decrease. */
  function SortBy<T>(s: seq<T>, key: T -> int): (r: seq<T>)
    ensures multiset(r) == multiset(s)
    ensures Ascending(r, key)
  {
    if s == [] then []
    else
      assert s == [s[0]] + s[1..];
      Insert(s[0], SortBy(s[1..], key), key)
  }
}
