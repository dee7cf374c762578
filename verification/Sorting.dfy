/** Stable sorting by a pair of numbers, as the engine sorts punches and adjustments. */
module Sorting {

  predicate Before(a: (int, int), b: (int, int)) {
    a.0 < b.0 || (a.0 == b.0 && a.1 < b.1)
  }

  ghost predicate Sorted<T>(s: seq<T>, key: T -> (int, int)) {
    forall i, j :: 0 <= i < j < |s| ==> !Before(key(s[j]), key(s[i]))
  }

  /** A key names one value. */
  ghost predicate KeysIdentify<T(!new)>(s: seq<T>, key: T -> (int, int)) {
    forall x, y :: x in s && y in s && key(x) == key(y) ==> x == y
  }

  function Insert<T>(s: seq<T>, x: T, key: T -> (int, int)): seq<T> {
    if s == [] || !Before(key(x), key(s[|s| - 1])) then s + [x]
    else Insert(s[..|s| - 1], x, key) + [s[|s| - 1]]
  }

  function Sort<T>(s: seq<T>, key: T -> (int, int)): seq<T> {
    if s == [] then [] else Insert(Sort(s[..|s| - 1], key), s[|s| - 1], key)
  }

  lemma {:induction false} InsertPermutes<T>(s: seq<T>, x: T, key: T -> (int, int))
    ensures multiset(Insert(s, x, key)) == multiset(s) + multiset{x}
    ensures |Insert(s, x, key)| == |s| + 1
    ensures forall i :: 0 <= i < |s| + 1 ==> Insert(s, x, key)[i] == x || Insert(s, x, key)[i] in s
  {
    if s != [] && Before(key(x), key(s[|s| - 1])) {
      InsertPermutes(s[..|s| - 1], x, key);
      assert s == s[..|s| - 1] + [s[|s| - 1]];
    }
  }

  lemma SameMembers<T>(s: seq<T>, t: seq<T>)
    requires multiset(s) == multiset(t)
    ensures |s| == |t|
    ensures forall x :: x in s <==> x in t
  {
    assert |multiset(s)| == |s| && |multiset(t)| == |t|;
    forall x ensures x in s <==> x in t {
      assert x in s <==> x in multiset(s);
      assert x in t <==> x in multiset(t);
    }
  }

  lemma {:induction false} InsertSorts<T>(s: seq<T>, x: T, key: T -> (int, int))
    requires Sorted(s, key)
    ensures Sorted(Insert(s, x, key), key)
  {
    if s != [] && Before(key(x), key(s[|s| - 1])) {
      var init, last := s[..|s| - 1], s[|s| - 1];
      InsertSorts(init, x, key);
      InsertPermutes(init, x, key);
      var inserted := Insert(init, x, key);
      forall i | 0 <= i < |inserted| ensures !Before(key(last), key(inserted[i])) {
        if inserted[i] != x {
          var j :| 0 <= j < |init| && init[j] == inserted[i];
        }
      }
    }
  }

  lemma {:induction false} SortSorts<T>(s: seq<T>, key: T -> (int, int))
    ensures Sorted(Sort(s, key), key) && multiset(Sort(s, key)) == multiset(s)
  {
    if s != [] {
      var init, last := s[..|s| - 1], s[|s| - 1];
      assert s == init + [last];
      SortSorts(init, key);
      InsertSorts(Sort(init, key), last, key);
      InsertPermutes(Sort(init, key), last, key);
    }
  }

  lemma PrefixSorted<T>(s: seq<T>, key: T -> (int, int))
    requires Sorted(s, key) && s != []
    ensures Sorted(s[..|s| - 1], key)
  {
    var init := s[..|s| - 1];
    forall i, j | 0 <= i < j < |init| ensures !Before(key(init[j]), key(init[i])) {
      assert init[i] == s[i] && init[j] == s[j];
    }
  }

  lemma {:induction false} SortKeepsSorted<T>(s: seq<T>, key: T -> (int, int))
    requires Sorted(s, key)
    ensures Sort(s, key) == s
  {
    if s != [] {
      var init, last := s[..|s| - 1], s[|s| - 1];
      PrefixSorted(s, key);
      SortKeepsSorted(init, key);
      assert init != [] ==> init[|init| - 1] == s[|s| - 2];
      assert Insert(init, last, key) == init + [last] == s;
    }
  }

  lemma LastGreatest<T>(s: seq<T>, key: T -> (int, int), x: T)
    requires Sorted(s, key) && x in s
    ensures !Before(key(s[|s| - 1]), key(x))
  {
    var i :| 0 <= i < |s| && s[i] == x;
  }

  lemma PrefixValues<T>(s: seq<T>)
    requires s != []
    ensures multiset(s[..|s| - 1]) == multiset(s) - multiset{s[|s| - 1]}
  {
    assert s == s[..|s| - 1] + [s[|s| - 1]];
  }

  lemma SameLast<T(!new)>(s: seq<T>, t: seq<T>, key: T -> (int, int))
    requires Sorted(s, key) && Sorted(t, key) && multiset(s) == multiset(t) && KeysIdentify(s, key) && s != []
    ensures |t| == |s| && s[|s| - 1] == t[|t| - 1]
    ensures multiset(s[..|s| - 1]) == multiset(t[..|t| - 1])
  {
    SameMembers(s, t);
    var a, b := s[|s| - 1], t[|t| - 1];
    LastGreatest(s, key, b);
    LastGreatest(t, key, a);
    assert key(a) == key(b);
    PrefixValues(s);
    PrefixValues(t);
  }

  /** Two sorted arrangements of the same values are the same. */
  lemma {:induction false} SortedUnique<T(!new)>(s: seq<T>, t: seq<T>, key: T -> (int, int))
    requires Sorted(s, key) && Sorted(t, key) && multiset(s) == multiset(t) && KeysIdentify(s, key)
    ensures s == t
  {
    SameMembers(s, t);
    if s != [] {
      SameLast(s, t, key);
      PrefixSorted(s, key);
      PrefixSorted(t, key);
      SortedUnique(s[..|s| - 1], t[..|t| - 1], key);
      assert s == s[..|s| - 1] + [s[|s| - 1]] && t == t[..|t| - 1] + [t[|t| - 1]];
    }
  }

  /** Sorting does not depend on the order the values came in. */
  lemma SortIgnoresOrder<T(!new)>(s: seq<T>, t: seq<T>, key: T -> (int, int))
    requires multiset(s) == multiset(t) && KeysIdentify(s, key)
    ensures Sort(s, key) == Sort(t, key)
  {
    SortSorts(s, key);
    SortSorts(t, key);
    SameMembers(s, Sort(s, key));
    SortedUnique(Sort(s, key), Sort(t, key), key);
  }
}
