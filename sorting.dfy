/** `Array.prototype.sort` with a comparator, as a stable insertion sort:
    each element goes after every earlier element the comparator does not
    put after it. For a comparator that is a total preorder this is the
    order every stable sort produces. */
module Sorting {

  /** Inserts e into r, passing from the end over the elements the
      comparator orders after e. */
  function Insert<T>(r: seq<T>, e: T, cmp: (T, T) -> int): (out: seq<T>)
    ensures multiset(out) == multiset(r) + multiset{e}
    ensures |out| == |r| + 1
  {
    if r == [] then [e]
    else if cmp(r[|r| - 1], e) > 0 then
      assert r == r[..|r| - 1] + [r[|r| - 1]];
      Insert(r[..|r| - 1], e, cmp) + [r[|r| - 1]]
    else r + [e]
  }

  /** `[...s].sort(cmp)`: a sorted copy; s itself is a value and stays as
      it was. */
  function Sort<T>(s: seq<T>, cmp: (T, T) -> int): (r: seq<T>)
    ensures multiset(r) == multiset(s)
    ensures |r| == |s|
  {
    if s == [] then []
    else
      assert s == s[..|s| - 1] + [s[|s| - 1]];
      Insert(Sort(s[..|s| - 1], cmp), s[|s| - 1], cmp)
  }

  /** The comparator is a total preorder on the elements of s: any two are
      comparable one way, and "not after" is transitive. */
  ghost predicate TotalPreorderOn<T>(cmp: (T, T) -> int, s: seq<T>) {
    && (forall a, b {:trigger cmp(a, b)} :: a in s && b in s ==> cmp(a, b) <= 0 || cmp(b, a) <= 0)
    && (forall a, b, c {:trigger cmp(a, b), cmp(b, c)} :: a in s && b in s && c in s && cmp(a, b) <= 0 && cmp(b, c) <= 0 ==> cmp(a, c) <= 0)
  }

  /** No element is ordered after a later one. */
  predicate Sorted<T>(r: seq<T>, cmp: (T, T) -> int) {
    forall i, j :: 0 <= i < j < |r| ==> cmp(r[i], r[j]) <= 0
  }

  lemma {:induction false} InsertSorted<T>(r: seq<T>, e: T, cmp: (T, T) -> int, s: seq<T>)
    requires TotalPreorderOn(cmp, s)
    requires Sorted(r, cmp) && (forall x :: x in r ==> x in s) && e in s
    ensures Sorted(Insert(r, e, cmp), cmp)
  {
    if r != [] {
      var init, last := r[..|r| - 1], r[|r| - 1];
      assert last in s;
      if cmp(last, e) > 0 {
        InsertSorted(init, e, cmp, s);
        var m := Insert(init, e, cmp);
        assert cmp(e, last) <= 0;
        forall i | 0 <= i < |m| ensures cmp(m[i], last) <= 0 {
          var y := m[i];
          assert y in multiset(init) + multiset{e};
          if y != e {
            var k :| 0 <= k < |init| && init[k] == y;
            assert r[k] == y;
          }
        }
        SortedSnoc(m, last, cmp);
      } else {
        forall i | 0 <= i < |r| ensures cmp(r[i], e) <= 0 {
          if i < |r| - 1 {
            assert cmp(r[i], last) <= 0;
            assert r[i] in s;
          }
        }
        SortedSnoc(r, e, cmp);
      }
    }
  }

  /** Appending an element no earlier one is ordered after keeps a sorted
      sequence sorted. */
  lemma SortedSnoc<T>(m: seq<T>, x: T, cmp: (T, T) -> int)
    requires Sorted(m, cmp) && forall i :: 0 <= i < |m| ==> cmp(m[i], x) <= 0
    ensures Sorted(m + [x], cmp)
  {
    forall i, j | 0 <= i < j < |m| + 1 ensures cmp((m + [x])[i], (m + [x])[j]) <= 0 {
      if j < |m| {
        assert (m + [x])[i] == m[i] && (m + [x])[j] == m[j];
      }
    }
  }

  /** Sorting with a total preorder yields a sorted sequence. */
  lemma {:induction false} SortSorted<T>(s: seq<T>, cmp: (T, T) -> int)
    requires TotalPreorderOn(cmp, s)
    ensures Sorted(Sort(s, cmp), cmp)
  {
    if s != [] {
      var init := s[..|s| - 1];
      assert forall x :: x in init ==> x in s;
      assert TotalPreorderOn(cmp, init);
      SortSorted(init, cmp);
      var r := Sort(init, cmp);
      forall x | x in r ensures x in s {
        assert x in multiset(init);
      }
      InsertSorted(r, s[|s| - 1], cmp, s);
    }
  }

  /** The elements whose key is k, in order. */
  function WithKey<T>(s: seq<T>, key: T -> int, k: int): (r: seq<T>)
    ensures |r| <= |s|
  {
    if s == [] then []
    else WithKey(s[..|s| - 1], key, k) + (if key(s[|s| - 1]) == k then [s[|s| - 1]] else [])
  }

  lemma {:induction false} InsertStable<T>(r: seq<T>, e: T, cmp: (T, T) -> int, key: T -> int, k: int)
    requires forall a, b :: cmp(a, b) == key(a) - key(b)
    ensures WithKey(Insert(r, e, cmp), key, k) == WithKey(r, key, k) + (if key(e) == k then [e] else [])
  {
    if r != [] {
      var init, last := r[..|r| - 1], r[|r| - 1];
      if cmp(last, e) > 0 {
        InsertStable(init, e, cmp, key, k);
        var m := Insert(init, e, cmp);
        assert (m + [last])[..|m|] == m;
      } else {
        assert (r + [e])[..|r|] == r;
      }
    }
  }

  /** Sorting by a numeric key (`(a, b) => key(a) - key(b)`) is stable:
      the elements sharing a key keep their relative order. */
  lemma {:induction false} SortStable<T>(s: seq<T>, cmp: (T, T) -> int, key: T -> int, k: int)
    requires forall a, b :: cmp(a, b) == key(a) - key(b)
    ensures WithKey(Sort(s, cmp), key, k) == WithKey(s, key, k)
  {
    if s != [] {
      var init := s[..|s| - 1];
      SortStable(init, cmp, key, k);
      InsertStable(Sort(init, cmp), s[|s| - 1], cmp, key, k);
    }
  }

  /** A key-difference comparator is a total preorder. */
  lemma KeyOrderIsTotalPreorder<T>(s: seq<T>, cmp: (T, T) -> int, key: T -> int)
    requires forall a, b :: cmp(a, b) == key(a) - key(b)
    ensures TotalPreorderOn(cmp, s)
  {
  }

  /** Input already in order comes back unchanged. */
  lemma {:induction false} SortKeepsSorted<T>(s: seq<T>, cmp: (T, T) -> int)
    requires Sorted(s, cmp)
    ensures Sort(s, cmp) == s
  {
    if s != [] {
      var init, last := s[..|s| - 1], s[|s| - 1];
      SortedInit(s, cmp);
      SortKeepsSorted(init, cmp);
      if |init| > 0 {
        assert cmp(s[|init| - 1], s[|s| - 1]) <= 0;
      }
      InsertLast(init, last, cmp);
      assert s == init + [last];
    }
  }

  lemma SortedInit<T>(s: seq<T>, cmp: (T, T) -> int)
    requires Sorted(s, cmp) && s != []
    ensures Sorted(s[..|s| - 1], cmp)
  {
    var init := s[..|s| - 1];
    forall i, j | 0 <= i < j < |init| ensures cmp(init[i], init[j]) <= 0 {
      assert init[i] == s[i] && init[j] == s[j];
    }
  }

  /** An element no earlier one is ordered after goes last. */
  lemma InsertLast<T>(r: seq<T>, e: T, cmp: (T, T) -> int)
    requires r == [] || cmp(r[|r| - 1], e) <= 0
    ensures Insert(r, e, cmp) == r + [e]
  {
  }
}
