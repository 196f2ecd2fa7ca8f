/** Python's `sorted(xs, key=k)` for an integer key: a stable insertion sort
    on sequences, with what it guarantees. */
module Sorting {

  ghost predicate SortedBy<T>(s: seq<T>, key: T -> int) {
    forall i, j :: 0 <= i < j < |s| ==> key(s[i]) <= key(s[j])
  }

  /** Insert `x` before the first element whose key is not smaller, so that
      `x` goes ahead of the elements with an equal key (the stable order
      when `x` came first in the input). */
  function Insert<T>(x: T, s: seq<T>, key: T -> int): (r: seq<T>)
    decreases |s|
  {
    if s == [] || key(x) <= key(s[0]) then [x] + s
    else [s[0]] + Insert(x, s[1..], key)
  }

  function SortBy<T>(s: seq<T>, key: T -> int): (r: seq<T>)
    decreases |s|
  {
    if s == [] then [] else Insert(s[0], SortBy(s[1..], key), key)
  }

  lemma {:induction false} InsertPermutes<T>(x: T, s: seq<T>, key: T -> int)
    ensures multiset(Insert(x, s, key)) == multiset(s) + multiset{x}
    decreases |s|
  {
    if s == [] || key(x) <= key(s[0]) {
    } else {
      InsertPermutes(x, s[1..], key);
      assert s == [s[0]] + s[1..];
    }
  }

  lemma {:induction false} InsertSorted<T>(x: T, s: seq<T>, key: T -> int)
    requires SortedBy(s, key)
    ensures SortedBy(Insert(x, s, key), key)
    decreases |s|
  {
    if s == [] || key(x) <= key(s[0]) {
    } else {
      InsertSorted(x, s[1..], key);
      InsertPermutes(x, s[1..], key);
      var r := Insert(x, s[1..], key);
      forall k | 0 <= k < |r| ensures key(s[0]) <= key(r[k]) {
        assert r[k] in multiset(r);
        assert r[k] in multiset(s[1..]) + multiset{x};
        if r[k] != x {
          assert r[k] in s[1..];
        }
      }
    }
  }

  /** `SortBy` returns its input in ascending key order. */
  lemma {:induction false} SortByCorrect<T>(s: seq<T>, key: T -> int)
    ensures SortedBy(SortBy(s, key), key)
    ensures multiset(SortBy(s, key)) == multiset(s)
    decreases |s|
  {
    if s != [] {
      SortByCorrect(s[1..], key);
      InsertSorted(s[0], SortBy(s[1..], key), key);
      InsertPermutes(s[0], SortBy(s[1..], key), key);
      assert s == [s[0]] + s[1..];
    }
  }

  /** The elements of `s` whose key is `k`, in their order in `s`. */
  function Keep<T>(s: seq<T>, key: T -> int, k: int): seq<T>
    decreases |s|
  {
    if s == [] then []
    else (if key(s[0]) == k then [s[0]] else []) + Keep(s[1..], key, k)
  }

  /** Among the elements with one key, `x` is inserted in front: it only
      passes elements whose key is smaller than its own. */
  lemma {:induction false} InsertKeeps<T>(x: T, s: seq<T>, key: T -> int, k: int)
    ensures Keep(Insert(x, s, key), key, k) == (if key(x) == k then [x] else []) + Keep(s, key, k)
    decreases |s|
  {
    var mine: seq<T> := if key(x) == k then [x] else [];
    if s == [] || key(x) <= key(s[0]) {
      KeepCons(x, s, key, k);
    } else {
      var rest := Insert(x, s[1..], key);
      var first: seq<T> := if key(s[0]) == k then [s[0]] else [];
      InsertKeeps(x, s[1..], key, k);
      KeepCons(s[0], rest, key, k);
      KeepCons(s[0], s[1..], key, k);
      assert s == [s[0]] + s[1..];
      assert mine == [] || first == [];
      calc {
        Keep(Insert(x, s, key), key, k);
        first + (mine + Keep(s[1..], key, k));
        mine + (first + Keep(s[1..], key, k));
      }
    }
  }

  lemma KeepCons<T>(x: T, s: seq<T>, key: T -> int, k: int)
    ensures Keep([x] + s, key, k) == (if key(x) == k then [x] else []) + Keep(s, key, k)
  {
    assert ([x] + s)[1..] == s;
  }

  lemma {:induction false} KeepAppend<T>(a: seq<T>, b: seq<T>, key: T -> int, k: int)
    ensures Keep(a + b, key, k) == Keep(a, key, k) + Keep(b, key, k)
    decreases |a|
  {
    if a != [] {
      KeepAppend(a[1..], b, key, k);
      KeepCons(a[0], a[1..] + b, key, k);
      KeepCons(a[0], a[1..], key, k);
      assert a + b == [a[0]] + (a[1..] + b);
      assert a == [a[0]] + a[1..];
    } else {
      assert a + b == b;
    }
  }

  /** `SortBy` is stable, as Python's `sorted` is: the elements with equal
      keys come out in the order they went in. */
  lemma {:induction false} SortByStable<T>(s: seq<T>, key: T -> int, k: int)
    ensures Keep(SortBy(s, key), key, k) == Keep(s, key, k)
    decreases |s|
  {
    if s != [] {
      SortByStable(s[1..], key, k);
      InsertKeeps(s[0], SortBy(s[1..], key), key, k);
    }
  }

  /** The first element of an ascending sequence has the smallest key. */
  lemma HeadIsLeast<T>(s: seq<T>, x: T, key: T -> int)
    requires SortedBy(s, key) && x in s
    ensures key(s[0]) <= key(x)
  {
    var k :| 0 <= k < |s| && s[k] == x;
    assert k == 0 || key(s[0]) <= key(s[k]);
  }

  /** Two ascending sequences with the same elements are equal when the key
      tells elements apart. */
  lemma {:induction false} SortedUnique<T>(a: seq<T>, b: seq<T>, key: T -> int)
    requires forall x, y :: key(x) == key(y) ==> x == y
    requires SortedBy(a, key) && SortedBy(b, key)
    requires multiset(a) == multiset(b)
    ensures a == b
    decreases |a|
  {
    if a == [] {
      assert |b| == |multiset(b)| == 0;
    } else {
      assert |b| == |multiset(b)| == |multiset(a)| > 0;
      assert a[0] in multiset(b);
      assert b[0] in multiset(a);
      HeadIsLeast(b, a[0], key);
      HeadIsLeast(a, b[0], key);
      assert a[0] == b[0];
      assert a == [a[0]] + a[1..];
      assert b == [b[0]] + b[1..];
      calc {
        multiset(a[1..]);
        multiset(a) - multiset{a[0]};
        multiset(b) - multiset{b[0]};
        multiset(b[1..]);
      }
      assert SortedBy(a[1..], key) && SortedBy(b[1..], key);
      SortedUnique(a[1..], b[1..], key);
    }
  }
}
