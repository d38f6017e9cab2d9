/** The contract of Go's sort.Slice, and why its freedom in ordering ties never shows:
    strictly ordered results of permuted inputs are equal. */
module Sorting {

  ghost predicate StrictWeakOrder<T(!new)>(less: (T, T) -> bool) {
    && (forall x, y :: less(x, y) ==> !less(y, x))
    && (forall x, y, z :: !less(y, x) && !less(z, y) ==> !less(z, x))
  }

  ghost predicate Sorted<T>(s: seq<T>, less: (T, T) -> bool) {
    forall i, j | 0 <= i < j < |s| :: !less(s[j], s[i])
  }

  ghost predicate StrictlySorted<T>(s: seq<T>, less: (T, T) -> bool) {
    forall i, j | 0 <= i < j < |s| :: less(s[i], s[j])
  }

  /** All that sort.Slice promises; it need not be stable. */
  ghost predicate IsSortOf<T>(result: seq<T>, input: seq<T>, less: (T, T) -> bool) {
    multiset(result) == multiset(input) && Sorted(result, less)
  }

  function InsertBy<T>(s: seq<T>, x: T, less: (T, T) -> bool): seq<T> {
    if s == [] || less(x, s[0]) then [x] + s else [s[0]] + InsertBy(s[1..], x, less)
  }

  function SortBy<T>(s: seq<T>, less: (T, T) -> bool): seq<T> {
    if s == [] then [] else InsertBy(SortBy(s[1..], less), s[0], less)
  }

  lemma {:induction false} InsertByAdds<T>(s: seq<T>, x: T, less: (T, T) -> bool)
    ensures multiset(InsertBy(s, x, less)) == multiset(s) + multiset{x}
  {
    if s != [] && !less(x, s[0]) {
      InsertByAdds(s[1..], x, less);
      assert s == [s[0]] + s[1..];
    }
  }

  lemma {:induction false} InsertBySorts<T(!new)>(s: seq<T>, x: T, less: (T, T) -> bool)
    requires StrictWeakOrder(less) && Sorted(s, less)
    ensures Sorted(InsertBy(s, x, less), less)
  {
    if s == [] || less(x, s[0]) {
      forall j | 0 <= j < |s| ensures !less(s[j], x) {
        assert !less(s[j], s[0]) || j == 0;
      }
    } else {
      var rest := InsertBy(s[1..], x, less);
      InsertBySorts(s[1..], x, less);
      InsertByAdds(s[1..], x, less);
      forall y | y in rest ensures !less(y, s[0]) {
        assert y in multiset(rest);
        if y != x {
          assert y in s[1..];
        }
      }
    }
  }

  lemma {:induction false} SortBySorts<T(!new)>(s: seq<T>, less: (T, T) -> bool)
    requires StrictWeakOrder(less)
    ensures IsSortOf(SortBy(s, less), s, less)
  {
    if s != [] {
      SortBySorts(s[1..], less);
      InsertBySorts(SortBy(s[1..], less), s[0], less);
      InsertByAdds(SortBy(s[1..], less), s[0], less);
      assert s == [s[0]] + s[1..];
    }
  }

  lemma CountedOnce<T(!new)>(s: seq<T>, i: nat, less: (T, T) -> bool)
    requires StrictWeakOrder(less) && StrictlySorted(s, less) && i < |s|
    ensures multiset(s)[s[i]] == 1
  {
    assert s == s[..i] + [s[i]] + s[i + 1..];
    assert s[i] !in s[..i] && s[i] !in s[i + 1..];
  }

  lemma CountedTwice<T>(s: seq<T>, i: nat, j: nat)
    requires i < j < |s|
    ensures s[i] == s[j] ==> multiset(s)[s[i]] >= 2
  {
    assert s == s[..i] + [s[i]] + s[i + 1..j] + [s[j]] + s[j + 1..];
  }

  /** Strictness belongs to the elements, not to the order they came in. */
  lemma StrictnessIsShared<T(!new)>(a: seq<T>, b: seq<T>, less: (T, T) -> bool)
    requires StrictWeakOrder(less)
    requires multiset(a) == multiset(b) && Sorted(b, less) && StrictlySorted(a, less)
    ensures StrictlySorted(b, less)
  {
    forall i, j | 0 <= i < j < |b| ensures less(b[i], b[j]) {
      assert b[i] in multiset(b) && b[j] in multiset(b);
      assert b[i] in a && b[j] in a;
      var k :| 0 <= k < |a| && a[k] == b[i];
      var l :| 0 <= l < |a| && a[l] == b[j];
      CountedOnce(a, k, less);
      CountedTwice(b, i, j);
      assert !less(b[j], b[i]);
    }
  }

  lemma SameLeast<T(!new)>(a: seq<T>, b: seq<T>, less: (T, T) -> bool)
    requires StrictWeakOrder(less) && a != [] && b != []
    requires multiset(a) == multiset(b) && StrictlySorted(a, less) && StrictlySorted(b, less)
    ensures a[0] == b[0]
  {
    assert a[0] in multiset(b) && b[0] in multiset(a);
    var k :| 0 <= k < |b| && b[k] == a[0];
    var l :| 0 <= l < |a| && a[l] == b[0];
    assert k == 0 && l == 0;
  }

  lemma SameTail<T>(a: seq<T>, b: seq<T>)
    requires a != [] && b != [] && a[0] == b[0] && multiset(a) == multiset(b)
    ensures multiset(a[1..]) == multiset(b[1..])
  {
    assert a == [a[0]] + a[1..] && b == [b[0]] + b[1..];
    assert multiset(a[1..]) == multiset(a) - multiset{a[0]};
  }

  lemma {:induction false} StrictSortIsUnique<T(!new)>(a: seq<T>, b: seq<T>, less: (T, T) -> bool)
    requires StrictWeakOrder(less)
    requires multiset(a) == multiset(b) && StrictlySorted(a, less) && StrictlySorted(b, less)
    ensures a == b
  {
    if a == [] || b == [] {
      assert |multiset(a)| == |a| && |multiset(b)| == |b|;
    } else {
      SameLeast(a, b, less);
      SameTail(a, b);
      StrictSortIsUnique(a[1..], b[1..], less);
      assert a == [a[0]] + a[1..] && b == [b[0]] + b[1..];
    }
  }
}
