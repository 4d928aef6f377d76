/** The library sort, on sequences whose elements are pairwise comparable. */
module Sorting {
  import opened Orders

  function Insert<T>(lt: (T, T) -> bool, x: T, s: seq<T>): (r: seq<T>)
    ensures multiset(r) == multiset(s) + multiset{x}
  {
    if s == [] then [x]
    else if lt(s[0], x) then
      assert s == [s[0]] + s[1..];
      [s[0]] + Insert(lt, x, s[1..])
    else [x] + s
  }

  function Sort<T>(lt: (T, T) -> bool, s: seq<T>): (r: seq<T>)
    ensures multiset(r) == multiset(s)
  {
    if s == [] then []
    else
      assert s == s[..|s| - 1] + [s[|s| - 1]];
      Insert(lt, s[|s| - 1], Sort(lt, s[..|s| - 1]))
  }

  ghost predicate Comparable<T>(lt: (T, T) -> bool, s: seq<T>) {
    forall i, j | 0 <= i < j < |s| :: lt(s[i], s[j]) || lt(s[j], s[i])
  }

  lemma {:induction false} InsertKeepsSorted<T(!new)>(lt: (T, T) -> bool, x: T, s: seq<T>)
    requires IsStrictOrder(lt) && StrictlySorted(lt, s)
    requires forall y | y in s :: lt(x, y) || lt(y, x)
    ensures StrictlySorted(lt, Insert(lt, x, s))
  {
    if s != [] && lt(s[0], x) {
      InsertKeepsSorted(lt, x, s[1..]);
      var rest := Insert(lt, x, s[1..]);
      forall y | y in rest ensures lt(s[0], y) {
        assert y in multiset(rest);
      }
    } else if s != [] {
      assert forall y | y in s :: y == s[0] || lt(s[0], y);
    }
  }

  lemma {:induction false} SortSorts<T(!new)>(lt: (T, T) -> bool, s: seq<T>)
    requires IsStrictOrder(lt) && Comparable(lt, s)
    ensures StrictlySorted(lt, Sort(lt, s))
  {
    if s != [] {
      var init, x := s[..|s| - 1], s[|s| - 1];
      SortSorts(lt, init);
      forall y | y in Sort(lt, init) ensures lt(x, y) || lt(y, x) {
        assert y in multiset(init);
        var i :| 0 <= i < |init| && init[i] == y;
        assert s[i] == y;
      }
      InsertKeepsSorted(lt, x, Sort(lt, init));
    }
  }

  lemma SortKeepsElements<T(!new)>(lt: (T, T) -> bool, s: seq<T>)
    ensures forall x :: x in Sort(lt, s) <==> x in s
  {
    forall x ensures x in Sort(lt, s) <==> x in s {
      assert x in Sort(lt, s) <==> x in multiset(Sort(lt, s));
    }
  }

  /** Sorting forgets the order it started from. */
  lemma SortIgnoresOrder<T(!new)>(lt: (T, T) -> bool, s: seq<T>, t: seq<T>)
    requires IsStrictOrder(lt) && Comparable(lt, s) && Comparable(lt, t)
    requires forall x :: x in s <==> x in t
    ensures Sort(lt, s) == Sort(lt, t)
  {
    SortSorts(lt, s);
    SortSorts(lt, t);
    SortKeepsElements(lt, s);
    SortKeepsElements(lt, t);
    var u, v := Sort(lt, s), Sort(lt, t);
    assert forall x :: x in u <==> x in v;
    SortedIsUnique(lt, u, v);
  }

  // ---- strings ----

  predicate Distinct<T(==)>(s: seq<T>) {
    forall i, j | 0 <= i < j < |s| :: s[i] != s[j]
  }

  lemma LessIsStrictOrder()
    ensures IsStrictOrder(Less)
  {
    forall a ensures !Less(a, a) {
      LessIsTotal(a, a);
    }
    forall a, b, c | Less(a, b) && Less(b, c) ensures Less(a, c) {
      LessIsTransitive(a, b, c);
    }
  }

  function SortStrings(s: seq<string>): (r: seq<string>)
    ensures multiset(r) == multiset(s)
  {
    Sort(Less, s)
  }

  lemma DistinctStringsAreComparable(s: seq<string>)
    requires Distinct(s)
    ensures Comparable(Less, s)
  {
    forall i, j | 0 <= i < j < |s| ensures Less(s[i], s[j]) || Less(s[j], s[i]) {
      LessIsTotal(s[i], s[j]);
    }
  }

  /** A duplicate-free list of strings sorts to its one strictly ascending arrangement. */
  lemma SortedStrings(s: seq<string>)
    requires Distinct(s)
    ensures StrictlySorted(Less, SortStrings(s)) && Distinct(SortStrings(s))
    ensures forall x :: x in SortStrings(s) <==> x in s
    ensures SortStrings(SortStrings(s)) == SortStrings(s)
  {
    LessIsStrictOrder();
    DistinctStringsAreComparable(s);
    SortSorts(Less, s);
    SortKeepsElements(Less, s);
    var r := SortStrings(s);
    forall i, j | 0 <= i < j < |r| ensures r[i] != r[j] {
      LessIsTotal(r[i], r[j]);
    }
    DistinctStringsAreComparable(r);
    SortIgnoresOrder(Less, s, r);
  }
}
