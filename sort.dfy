/**
 * Python's `sorted(xs, key=f)`: an ascending, stable sort. Written as an
 * insertion sort that places each element in front of the first later
 * element whose key is not smaller, which keeps equal keys in list order.
 */
module StableSort {
  /** Ascending by `key`. */
  predicate SortedBy<T>(s: seq<T>, key: T -> int) {
    forall i, j :: 0 <= i < j < |s| ==> key(s[i]) <= key(s[j])
  }

  /** Places `x` in front of the first element whose key is not below its own. */
  function Insert<T>(x: T, s: seq<T>, key: T -> int): (r: seq<T>)
    ensures multiset(r) == multiset(s) + multiset{x}
    ensures |r| == |s| + 1
  {
    if s == [] || key(x) <= key(s[0]) then [x] + s
    else
      assert s == [s[0]] + s[1..];
      [s[0]] + Insert(x, s[1..], key)
  }

  lemma {:induction false} InsertSorted<T>(x: T, s: seq<T>, key: T -> int)
    requires SortedBy(s, key)
    ensures SortedBy(Insert(x, s, key), key)
  {
    if s != [] && key(x) > key(s[0]) {
      var t := s[1..];
      InsertSorted(x, t, key);
      var r' := Insert(x, t, key);
      assert r'[0] == x || r'[0] == t[0];
      assert key(s[0]) <= key(r'[0]);
      var r := Insert(x, s, key);
      assert r == [s[0]] + r';
      forall i, j | 0 <= i < j < |r| ensures key(r[i]) <= key(r[j]) {
        if i == 0 {
          assert key(r'[0]) <= key(r'[j - 1]);
        }
      }
    }
  }

  /** Dropping one position keeps a sorted list sorted. */
  lemma SortedWithout<T>(s: seq<T>, i: nat, key: T -> int)
    requires i < |s| && SortedBy(s, key)
    ensures SortedBy(s[..i] + s[i + 1..], key)
  {
    var r := s[..i] + s[i + 1..];
    forall a, b | 0 <= a < b < |r| ensures key(r[a]) <= key(r[b]) {
      assert r[a] == s[if a < i then a else a + 1];
      assert r[b] == s[if b < i then b else b + 1];
    }
  }

  /** `sorted(s, key=key)`. */
  function SortBy<T>(s: seq<T>, key: T -> int): seq<T> {
    if s == [] then [] else Insert(s[0], SortBy(s[1..], key), key)
  }

  /** The result is in order and holds the same elements as the input. */
  lemma {:induction false} SortByOrdersAndPermutes<T>(s: seq<T>, key: T -> int)
    ensures SortedBy(SortBy(s, key), key)
    ensures multiset(SortBy(s, key)) == multiset(s)
  {
    if s != [] {
      SortByOrdersAndPermutes(s[1..], key);
      InsertSorted(s[0], SortBy(s[1..], key), key);
      assert s == [s[0]] + s[1..];
    }
  }

  /** The elements whose key is `v`, in list order. */
  function WithKey<T>(s: seq<T>, key: T -> int, v: int): seq<T> {
    if s == [] then []
    else (if key(s[0]) == v then [s[0]] else []) + WithKey(s[1..], key, v)
  }

  lemma {:induction false} WithKeyAppend<T>(s: seq<T>, t: seq<T>, key: T -> int, v: int)
    ensures WithKey(s + t, key, v) == WithKey(s, key, v) + WithKey(t, key, v)
  {
    if s == [] {
      assert s + t == t;
    } else {
      var h := if key(s[0]) == v then [s[0]] else [];
      var u := s + t;
      assert u[0] == s[0] && u[1..] == s[1..] + t;
      assert WithKey(u, key, v) == h + WithKey(s[1..] + t, key, v);
      WithKeyAppend(s[1..], t, key, v);
      assert h + (WithKey(s[1..], key, v) + WithKey(t, key, v)) == (h + WithKey(s[1..], key, v)) + WithKey(t, key, v);
    }
  }

  /** Inserting `x` adds it to the filtered list of its own key, at the front, and leaves the others alone. */
  lemma {:induction false} WithKeyInsert<T>(x: T, s: seq<T>, key: T -> int, v: int)
    ensures WithKey(Insert(x, s, key), key, v) == (if key(x) == v then [x] else []) + WithKey(s, key, v)
  {
    var r := Insert(x, s, key);
    if s == [] || key(x) <= key(s[0]) {
      assert r[0] == x && r[1..] == s;
    } else {
      assert r[0] == s[0] && r[1..] == Insert(x, s[1..], key);
      WithKeyInsert(x, s[1..], key, v);
      if key(x) == v {
        assert WithKey(r, key, v) == WithKey(r[1..], key, v);
        assert WithKey(s, key, v) == WithKey(s[1..], key, v);
      } else {
        assert WithKey(r[1..], key, v) == WithKey(s[1..], key, v);
      }
    }
  }

  /** Stability: the elements of each key keep their relative order. */
  lemma {:induction false} SortStable<T>(s: seq<T>, key: T -> int, v: int)
    ensures WithKey(SortBy(s, key), key, v) == WithKey(s, key, v)
  {
    if s != [] {
      SortStable(s[1..], key, v);
      WithKeyInsert(s[0], SortBy(s[1..], key), key, v);
    }
  }

  /** A list already in order is left as it is. */
  lemma {:induction false} SortedUnchanged<T>(s: seq<T>, key: T -> int)
    requires SortedBy(s, key)
    ensures SortBy(s, key) == s
  {
    if s != [] {
      SortedUnchanged(s[1..], key);
    }
  }

  /** An element appended and then sorted in follows every earlier element with its key. */
  lemma NewLastOfItsKey<T>(s: seq<T>, x: T, key: T -> int)
    ensures WithKey(SortBy(s + [x], key), key, key(x)) == WithKey(s, key, key(x)) + [x]
  {
    SortStable(s + [x], key, key(x));
    WithKeyAppend(s, [x], key, key(x));
    assert WithKey([x], key, key(x)) == [x] + WithKey([], key, key(x));
  }

  /** Elements with any other key keep their relative order when an element is appended and sorted in. */
  lemma OthersKeepOrder<T>(s: seq<T>, x: T, key: T -> int, v: int)
    requires key(x) != v
    ensures WithKey(SortBy(s + [x], key), key, v) == WithKey(s, key, v)
  {
    SortStable(s + [x], key, v);
    WithKeyAppend(s, [x], key, v);
    assert [x][1..] == [];
    assert WithKey([x], key, v) == [] + WithKey([], key, v);
  }
}
