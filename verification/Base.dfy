/** Small vocabulary shared by the other modules. */
module Base {

  datatype Option<+T> = None | Some(value: T)

  /** No value occurs twice. */
  ghost predicate Distinct<T>(s: seq<T>) {
    forall i, j :: 0 <= i < j < |s| ==> s[i] != s[j]
  }

  /** The value of f for each element, in order. */
  function Each<A, B>(s: seq<A>, f: A -> B): (r: seq<B>)
    ensures |r| == |s| && forall i :: 0 <= i < |r| ==> r[i] == f(s[i])
  {
    seq(|s|, i requires 0 <= i < |s| => f(s[i]))
  }

  function Max(a: int, b: int): int {
    if a < b then b else a
  }

  function Min(a: int, b: int): int {
    if a < b then a else b
  }

  lemma PrefixStep<T>(s: seq<T>, i: nat)
    requires i < |s|
    ensures s[..i + 1] == s[..i] + [s[i]]
    ensures s[..i + 1][..i] == s[..i]
  {
  }

  lemma WholePrefix<T>(s: seq<T>)
    ensures s[..|s|] == s
  {
  }

  lemma {:induction false} DistinctCount<T>(s: seq<T>, x: T)
    requires Distinct(s)
    ensures multiset(s)[x] == if x in s then 1 else 0
  {
    if s != [] {
      var init := s[..|s| - 1];
      assert s == init + [s[|s| - 1]];
      DistinctCount(init, x);
      assert s[|s| - 1] !in init;
    }
  }

  lemma SameCounts<T>(s: seq<T>, t: seq<T>)
    requires Distinct(s)
    ensures (Distinct(t) && (forall x :: x in t <==> x in s)) <==> multiset(t) == multiset(s)
  {
    if Distinct(t) && (forall x :: x in t <==> x in s) {
      forall x ensures multiset(t)[x] == multiset(s)[x] {
        DistinctCount(s, x);
        DistinctCount(t, x);
      }
    }
    if multiset(t) == multiset(s) {
      forall x ensures x in t <==> x in s {
        assert x in multiset(t) <==> x in multiset(s);
      }
      forall i, j | 0 <= i < j < |t| ensures t[i] != t[j] {
        if t[i] == t[j] {
          var x := t[i];
          assert t == t[..i] + [x] + t[i + 1..j] + [x] + t[j + 1..];
          DistinctCount(s, x);
          assert false;
        }
      }
    }
  }
}
