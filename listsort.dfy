/** Python's list.sort(key=key, reverse=reverse): a stable sort by the keys'
    order, where `reverse` sorts as if every comparison were reversed and
    still keeps elements with equal keys in their original order. The library's
    algorithm is not modelled; its result is, as a stable insertion sort. */
module ListSort {
  import opened PyOrder

  /** `x` must be placed strictly before `y`: its key is smaller, or larger when
      sorting in reverse. */
  predicate Before<T>(x: T, y: T, key: T -> Key, reverse: bool) {
    if reverse then KeyLess(key(y), key(x)) else KeyLess(key(x), key(y))
  }

  /** No element is placed after one it must come before: ascending keys, or
      descending keys when `reverse` holds. */
  ghost predicate Ordered<T>(s: seq<T>, key: T -> Key, reverse: bool) {
    forall i, j :: 0 <= i < j < |s| ==> !Before(s[j], s[i], key, reverse)
  }

  /** The elements of `s` whose key is `k`, in their order in `s`. */
  function WithKey<T>(s: seq<T>, key: T -> Key, k: Key): seq<T> {
    if s == [] then [] else (if key(s[0]) == k then [s[0]] else []) + WithKey(s[1..], key, k)
  }

  /** Inserts `x` in front of the first element it must come before. */
  function Insert<T>(x: T, s: seq<T>, key: T -> Key, reverse: bool): (r: seq<T>)
    ensures multiset(r) == multiset(s) + multiset{x}
    ensures |r| == |s| + 1
  {
    if s == [] then
      [x]
    else if Before(x, s[0], key, reverse) then
      [x] + s
    else
      assert s == [s[0]] + s[1..];
      [s[0]] + Insert(x, s[1..], key, reverse)
  }

  /** The list `s` after `s.sort(key=key, reverse=reverse)`. */
  function SortBy<T>(s: seq<T>, key: T -> Key, reverse: bool): (r: seq<T>)
    ensures multiset(r) == multiset(s)
    ensures |r| == |s|
  {
    if s == [] then
      []
    else
      assert s == s[..|s| - 1] + [s[|s| - 1]];
      Insert(s[|s| - 1], SortBy(s[..|s| - 1], key, reverse), key, reverse)
  }

  /** `Before` is a strict total order on keys. */
  lemma BeforeOrder<T>(key: T -> Key, reverse: bool, x: T, y: T, z: T)
    ensures !Before(x, x, key, reverse)
    ensures Before(x, y, key, reverse) && Before(y, z, key, reverse) ==> Before(x, z, key, reverse)
    ensures key(x) != key(y) ==> Before(x, y, key, reverse) || Before(y, x, key, reverse)
    ensures Before(x, y, key, reverse) ==> key(x) != key(y)
  {
    KeyLessStrictTotal();
  }

  lemma {:induction false} InsertOrdered<T>(x: T, s: seq<T>, key: T -> Key, reverse: bool)
    requires Ordered(s, key, reverse)
    ensures Ordered(Insert(x, s, key, reverse), key, reverse)
  {
    var r := Insert(x, s, key, reverse);
    if s == [] {
    } else if Before(x, s[0], key, reverse) {
      forall i, j | 0 <= i < j < |r| ensures !Before(r[j], r[i], key, reverse) {
        if i == 0 {
          // r[j] is s[j - 1], which is not before s[0]; were it before x, it
          // would be before s[0] too
          BeforeOrder(key, reverse, r[j], x, s[0]);
          BeforeOrder(key, reverse, x, s[0], x);
        } else {
          assert r[i] == s[i - 1] && r[j] == s[j - 1];
        }
      }
    } else {
      var t := Insert(x, s[1..], key, reverse);
      InsertOrdered(x, s[1..], key, reverse);
      forall j | 0 < j < |r| ensures !Before(r[j], s[0], key, reverse) {
        assert r[j] == t[j - 1];
        assert r[j] in multiset(t);
        if r[j] != x {
          assert r[j] in s[1..];
          var m :| 0 <= m < |s[1..]| && s[1..][m] == r[j];
          assert s[m + 1] == r[j];
        }
      }
    }
  }

  /** `s.sort(...)` leaves the list ordered by its keys. */
  lemma {:induction false} SortByOrdered<T>(s: seq<T>, key: T -> Key, reverse: bool)
    ensures Ordered(SortBy(s, key, reverse), key, reverse)
  {
    if s != [] {
      SortByOrdered(s[..|s| - 1], key, reverse);
      InsertOrdered(s[|s| - 1], SortBy(s[..|s| - 1], key, reverse), key, reverse);
    }
  }

  lemma {:induction false} WithKeyAppend<T>(a: seq<T>, b: seq<T>, key: T -> Key, k: Key)
    ensures WithKey(a + b, key, k) == WithKey(a, key, k) + WithKey(b, key, k)
  {
    if a == [] {
      assert a + b == b;
    } else {
      var ab := a + b;
      var head := if key(a[0]) == k then [a[0]] else [];
      assert ab[0] == a[0] && ab[1..] == a[1..] + b;
      assert WithKey(ab, key, k) == head + WithKey(a[1..] + b, key, k);
      WithKeyAppend(a[1..], b, key, k);
      assert WithKey(a, key, k) == head + WithKey(a[1..], key, k);
      assert head + (WithKey(a[1..], key, k) + WithKey(b, key, k)) ==
             (head + WithKey(a[1..], key, k)) + WithKey(b, key, k);
    }
  }

  lemma {:induction false} WithKeyNone<T>(s: seq<T>, key: T -> Key, k: Key)
    requires forall i :: 0 <= i < |s| ==> key(s[i]) != k
    ensures WithKey(s, key, k) == []
  {
    if s != [] {
      WithKeyNone(s[1..], key, k);
    }
  }

  /** When `x` goes in front of an ordered `s`, no element of `s` shares its key. */
  lemma FrontKeyUnique<T>(x: T, s: seq<T>, key: T -> Key, reverse: bool)
    requires Ordered(s, key, reverse)
    requires s != [] && Before(x, s[0], key, reverse)
    ensures forall i :: 0 <= i < |s| ==> key(s[i]) != key(x)
  {
    forall i | 0 <= i < |s| ensures key(s[i]) != key(x) {
      BeforeOrder(key, reverse, x, s[0], x);
      if i > 0 {
        assert !Before(s[i], s[0], key, reverse);
      }
    }
  }

  lemma WithKeyCons<T>(x: T, s: seq<T>, key: T -> Key, k: Key)
    ensures WithKey([x] + s, key, k) == (if key(x) == k then [x] else []) + WithKey(s, key, k)
  {
    assert ([x] + s)[0] == x && ([x] + s)[1..] == s;
  }

  lemma {:induction false} InsertWithKey<T>(x: T, s: seq<T>, key: T -> Key, reverse: bool, k: Key)
    requires Ordered(s, key, reverse)
    ensures WithKey(Insert(x, s, key, reverse), key, k) ==
            WithKey(s, key, k) + (if key(x) == k then [x] else [])
  {
    var tail := if key(x) == k then [x] else [];
    if s == [] {
      assert Insert(x, s, key, reverse) == [x] + s;
      WithKeyCons(x, s, key, k);
      assert WithKey(s, key, k) == [];
    } else if Before(x, s[0], key, reverse) {
      assert Insert(x, s, key, reverse) == [x] + s;
      WithKeyCons(x, s, key, k);
      if key(x) == k {
        FrontKeyUnique(x, s, key, reverse);
        WithKeyNone(s, key, k);
      }
    } else {
      var t := Insert(x, s[1..], key, reverse);
      var head := if key(s[0]) == k then [s[0]] else [];
      var ws := WithKey(s[1..], key, k);
      calc {
        WithKey(Insert(x, s, key, reverse), key, k);
        { assert Insert(x, s, key, reverse) == [s[0]] + t; }
        WithKey([s[0]] + t, key, k);
        { WithKeyCons(s[0], t, key, k); }
        head + WithKey(t, key, k);
        { InsertWithKey(x, s[1..], key, reverse, k); }
        head + (ws + tail);
        (head + ws) + tail;
        { assert WithKey(s, key, k) == head + ws; }
        WithKey(s, key, k) + tail;
      }
    }
  }

  /** The sort is stable: the elements with any one key keep their relative
      order. */
  lemma {:induction false} SortByStable<T>(s: seq<T>, key: T -> Key, reverse: bool, k: Key)
    ensures WithKey(SortBy(s, key, reverse), key, k) == WithKey(s, key, k)
  {
    if s != [] {
      var init, last := s[..|s| - 1], s[|s| - 1];
      var sorted := SortBy(init, key, reverse);
      var tail := if key(last) == k then [last] else [];
      SortByOrdered(init, key, reverse);
      calc {
        WithKey(SortBy(s, key, reverse), key, k);
        WithKey(Insert(last, sorted, key, reverse), key, k);
        { InsertWithKey(last, sorted, key, reverse, k); }
        WithKey(sorted, key, k) + tail;
        { SortByStable(init, key, reverse, k); }
        WithKey(init, key, k) + tail;
        { assert WithKey([last], key, k) == tail; WithKeyAppend(init, [last], key, k); }
        WithKey(init + [last], key, k);
        { assert s == init + [last]; }
        WithKey(s, key, k);
      }
    }
  }

  lemma {:induction false} InsertAtEnd<T>(x: T, s: seq<T>, key: T -> Key, reverse: bool)
    requires forall i :: 0 <= i < |s| ==> !Before(x, s[i], key, reverse)
    ensures Insert(x, s, key, reverse) == s + [x]
  {
    if s != [] {
      InsertAtEnd(x, s[1..], key, reverse);
    }
  }

  /** Sorting a list that is already ordered leaves it as it is. */
  lemma {:induction false} SortByOrderedUnchanged<T>(s: seq<T>, key: T -> Key, reverse: bool)
    requires Ordered(s, key, reverse)
    ensures SortBy(s, key, reverse) == s
  {
    if s != [] {
      var init, last := s[..|s| - 1], s[|s| - 1];
      SortByOrderedUnchanged(init, key, reverse);
      InsertAtEnd(last, init, key, reverse);
    }
  }

  /** Sorting twice with the same parameters gives the same list as sorting once. */
  lemma SortByIdempotent<T>(s: seq<T>, key: T -> Key, reverse: bool)
    ensures SortBy(SortBy(s, key, reverse), key, reverse) == SortBy(s, key, reverse)
  {
    SortByOrdered(s, key, reverse);
    SortByOrderedUnchanged(SortBy(s, key, reverse), key, reverse);
  }
}
