/** `Array.prototype.sort(comparefn)` as a stable insertion sort over any
    comparator: negative means the first argument goes first. */
module Sort {

  /** No pair of `s` is out of order for `cmp`. */
  ghost predicate Sorted<T>(s: seq<T>, cmp: (T, T) -> int)
  {
    forall i, j :: 0 <= i < j < |s| ==> cmp(s[i], s[j]) <= 0
  }

  /** Swapping the arguments negates the comparison. */
  ghost predicate Antisymmetric<T(!new)>(cmp: (T, T) -> int)
  {
    forall a, b :: cmp(b, a) == -cmp(a, b)
  }

  /** "Not after" is transitive among the elements that satisfy `ok`. */
  ghost predicate TransitiveOn<T(!new)>(cmp: (T, T) -> int, ok: T -> bool)
  {
    forall a, b, c :: ok(a) && ok(b) && ok(c) && cmp(a, b) <= 0 && cmp(b, c) <= 0 ==> cmp(a, c) <= 0
  }

  /** Inserts `x` before the first element that must follow it, after every
      element it ties with. */
  function Insert<T>(x: T, s: seq<T>, cmp: (T, T) -> int): (r: seq<T>)
    ensures |r| == |s| + 1
    ensures multiset(r) == multiset(s) + multiset{x}
  {
    if s == [] then [x]
    else if cmp(x, s[0]) < 0 then [x] + s
    else
      assert s == [s[0]] + s[1..];
      [s[0]] + Insert(x, s[1..], cmp)
  }

  /** Sorts the prefix, then inserts the last element: a new sequence with
      the same elements. */
  function InsertionSort<T>(s: seq<T>, cmp: (T, T) -> int): (r: seq<T>)
    ensures |r| == |s|
    ensures multiset(r) == multiset(s)
  {
    if s == [] then []
    else
      var k := |s| - 1;
      assert s == s[..k] + [s[k]];
      Insert(s[k], InsertionSort(s[..k], cmp), cmp)
  }

  /** A head that comes before every element of a sorted tail gives a sorted
      sequence. */
  lemma SortedCons<T>(x: T, s: seq<T>, cmp: (T, T) -> int)
    requires Sorted(s, cmp) && forall j :: 0 <= j < |s| ==> cmp(x, s[j]) <= 0
    ensures Sorted([x] + s, cmp)
  {
    var r := [x] + s;
    forall i, j | 0 <= i < j < |r|
      ensures cmp(r[i], r[j]) <= 0
    {
      if i > 0 {
        assert r[i] == s[i - 1] && r[j] == s[j - 1];
      }
    }
  }

  /** Inserting into a sorted sequence keeps it sorted. */
  lemma {:induction false} InsertSorted<T(!new)>(x: T, s: seq<T>, cmp: (T, T) -> int, ok: T -> bool)
    requires Antisymmetric(cmp) && TransitiveOn(cmp, ok)
    requires Sorted(s, cmp) && (forall y :: y in s ==> ok(y)) && ok(x)
    ensures Sorted(Insert(x, s, cmp), cmp)
    decreases |s|
  {
    if s == [] {
    } else if cmp(x, s[0]) < 0 {
      forall j | 0 <= j < |s|
        ensures cmp(x, s[j]) <= 0
      {
        if j > 0 {
          assert ok(s[0]) && ok(s[j]);
        }
      }
      SortedCons(x, s, cmp);
    } else {
      var t := s[1..];
      assert Sorted(t, cmp);
      InsertSorted(x, t, cmp, ok);
      var u := Insert(x, t, cmp);
      forall j | 0 <= j < |u|
        ensures cmp(s[0], u[j]) <= 0
      {
        assert u[j] in multiset(u);
        if u[j] != x {
          assert u[j] in t;
        }
      }
      SortedCons(s[0], u, cmp);
    }
  }

  /** A prefix keeps every element satisfying `ok`. */
  lemma AllOkPrefix<T>(s: seq<T>, k: nat, ok: T -> bool)
    requires k <= |s| && forall y :: y in s ==> ok(y)
    ensures forall y :: y in s[..k] ==> ok(y)
  {
    assert forall y :: y in s[..k] ==> y in s;
  }

  /** Rearranging the elements keeps all of them satisfying `ok`. */
  lemma AllOkPermutation<T>(s: seq<T>, t: seq<T>, ok: T -> bool)
    requires multiset(s) == multiset(t) && forall y :: y in t ==> ok(y)
    ensures forall y :: y in s ==> ok(y)
  {
    forall y | y in s
      ensures ok(y)
    {
      assert y in multiset(t);
    }
  }

  /** With a comparator that is a total preorder on the elements, the
      result is sorted. */
  lemma {:induction false} InsertionSortSorted<T(!new)>(s: seq<T>, cmp: (T, T) -> int, ok: T -> bool)
    requires Antisymmetric(cmp) && TransitiveOn(cmp, ok)
    requires forall y :: y in s ==> ok(y)
    ensures Sorted(InsertionSort(s, cmp), cmp)
    decreases |s|
  {
    if s != [] {
      var k := |s| - 1;
      var prefix := s[..k];
      AllOkPrefix(s, k, ok);
      InsertionSortSorted(prefix, cmp, ok);
      var sorted := InsertionSort(prefix, cmp);
      AllOkPermutation(sorted, prefix, ok);
      assert ok(s[k]);
      InsertSorted(s[k], sorted, cmp, ok);
      assert InsertionSort(s, cmp) == Insert(s[k], sorted, cmp);
    }
  }

  /** An element that nothing in `s` must follow goes at the end: ties keep
      their arrival order. */
  lemma {:induction false} InsertAtEnd<T(!new)>(x: T, s: seq<T>, cmp: (T, T) -> int)
    requires Antisymmetric(cmp)
    requires forall i :: 0 <= i < |s| ==> cmp(s[i], x) <= 0
    ensures Insert(x, s, cmp) == s + [x]
    decreases |s|
  {
    if s != [] {
      assert cmp(x, s[0]) == -cmp(s[0], x);
      InsertAtEnd(x, s[1..], cmp);
      assert s == [s[0]] + s[1..];
    }
  }

  /** Sorting a sorted sequence returns it unchanged. */
  lemma {:induction false} InsertionSortOfSorted<T(!new)>(s: seq<T>, cmp: (T, T) -> int)
    requires Antisymmetric(cmp) && Sorted(s, cmp)
    ensures InsertionSort(s, cmp) == s
    decreases |s|
  {
    if s != [] {
      var k := |s| - 1;
      assert Sorted(s[..k], cmp);
      InsertionSortOfSorted(s[..k], cmp);
      InsertAtEnd(s[k], s[..k], cmp);
      assert s[..k] + [s[k]] == s;
    }
  }
}
