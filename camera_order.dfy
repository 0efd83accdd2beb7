/** The order `SortCameras` puts the connected cameras in (lines 857-868):
    LINQ's `OrderBy(SortOrder).ThenBy(DisplayName)`, or
    `OrderByDescending(SortOrder).ThenByDescending(DisplayName)`. Both are
    stable: cameras with the same key keep the order they had. */
module CameraOrder {
  import opened Text

  /** The sort key of a camera: its `SortOrder`, then its `DisplayName`. */
  datatype Key = Key(order: int, name: string)

  /** `a` goes strictly before `b`. Descending order reverses both the
      comparison of `SortOrder` and that of `DisplayName`. */
  predicate Before(asc: bool, a: Key, b: Key) {
    if asc then a.order < b.order || (a.order == b.order && StrLess(a.name, b.name))
    else a.order > b.order || (a.order == b.order && StrLess(b.name, a.name))
  }

  lemma BeforeIrreflexive(asc: bool, a: Key)
    ensures !Before(asc, a, a)
  {
    StrLessIrreflexive(a.name);
  }

  lemma BeforeTransitive(asc: bool, a: Key, b: Key, c: Key)
    requires Before(asc, a, b) && Before(asc, b, c)
    ensures Before(asc, a, c)
  {
    if a.order == b.order == c.order {
      if asc { StrLessTransitive(a.name, b.name, c.name); }
      else { StrLessTransitive(c.name, b.name, a.name); }
    }
  }

  /** Two keys neither of which goes before the other are equal. */
  lemma BeforeTotal(asc: bool, a: Key, b: Key)
    requires !Before(asc, a, b) && !Before(asc, b, a)
    ensures a == b
  {
    if a.name != b.name {
      StrLessTotal(a.name, b.name);
    }
  }

  /** No element goes strictly before one that precedes it. */
  predicate Sorted<T>(asc: bool, key: T -> Key, s: seq<T>) {
    forall i, j :: 0 <= i < j < |s| ==> !Before(asc, key(s[j]), key(s[i]))
  }

  /** Insert `x` into a sorted sequence after every element it does not go
      strictly before, that is, after all elements with an equal key. */
  function Insert<T>(asc: bool, key: T -> Key, x: T, s: seq<T>): seq<T>
    decreases |s|
  {
    if s == [] then [x]
    else if Before(asc, key(x), key(s[0])) then [x] + s
    else [s[0]] + Insert(asc, key, x, s[1..])
  }

  /** The stable sort: each element, in input order, is inserted into the
      sorted arrangement of the ones before it. */
  function SortBy<T>(asc: bool, key: T -> Key, s: seq<T>): seq<T>
    decreases |s|
  {
    if s == [] then []
    else Insert(asc, key, s[|s| - 1], SortBy(asc, key, s[..|s| - 1]))
  }

  /** The elements whose key is `k`, in order. */
  function WithKey<T>(key: T -> Key, k: Key, s: seq<T>): seq<T>
    decreases |s|
  {
    if s == [] then []
    else (if key(s[0]) == k then [s[0]] else []) + WithKey(key, k, s[1..])
  }

  lemma {:induction false} WithKeyConcat<T>(key: T -> Key, k: Key, a: seq<T>, b: seq<T>)
    ensures WithKey(key, k, a + b) == WithKey(key, k, a) + WithKey(key, k, b)
    decreases |a|
  {
    if a != [] {
      assert (a + b)[1..] == a[1..] + b;
      WithKeyConcat(key, k, a[1..], b);
    } else {
      assert a + b == b;
    }
  }

  lemma {:induction false} InsertElements<T>(asc: bool, key: T -> Key, x: T, s: seq<T>)
    ensures multiset(Insert(asc, key, x, s)) == multiset(s) + multiset{x}
    decreases |s|
  {
    if s != [] && !Before(asc, key(x), key(s[0])) {
      InsertElements(asc, key, x, s[1..]);
      assert s == [s[0]] + s[1..];
    }
  }

  /** Every element of the insertion is `x` or an element of `s`. */
  lemma {:induction false} InsertMembers<T>(asc: bool, key: T -> Key, x: T, s: seq<T>, y: T)
    requires y in Insert(asc, key, x, s)
    ensures y == x || y in s
    decreases |s|
  {
    if s != [] && !Before(asc, key(x), key(s[0])) && y != s[0] {
      InsertMembers(asc, key, x, s[1..], y);
    }
  }

  /** Putting `h` in front of a sorted sequence keeps it sorted when no
      element goes strictly before `h`. */
  lemma ConsSorted<T>(asc: bool, key: T -> Key, h: T, r: seq<T>)
    requires Sorted(asc, key, r)
    requires forall j :: 0 <= j < |r| ==> !Before(asc, key(r[j]), key(h))
    ensures Sorted(asc, key, [h] + r)
  {
    var hr := [h] + r;
    forall i, j | 0 <= i < j < |hr| ensures !Before(asc, key(hr[j]), key(hr[i])) {
      assert hr[j] == r[j - 1];
      if i > 0 {
        assert hr[i] == r[i - 1];
      }
    }
  }

  lemma {:induction false} InsertSorted<T>(asc: bool, key: T -> Key, x: T, s: seq<T>)
    requires Sorted(asc, key, s)
    ensures Sorted(asc, key, Insert(asc, key, x, s))
    decreases |s|
  {
    if s == [] {
    } else if Before(asc, key(x), key(s[0])) {
      forall j | 0 <= j < |s| ensures !Before(asc, key(s[j]), key(x)) {
        if Before(asc, key(s[j]), key(x)) {
          BeforeTransitive(asc, key(s[j]), key(x), key(s[0]));
          if j == 0 {
            BeforeIrreflexive(asc, key(s[0]));
          }
        }
      }
      ConsSorted(asc, key, x, s);
    } else {
      var t := s[1..];
      InsertSorted(asc, key, x, t);
      var rt := Insert(asc, key, x, t);
      forall j | 0 <= j < |rt| ensures !Before(asc, key(rt[j]), key(s[0])) {
        InsertMembers(asc, key, x, t, rt[j]);
        if rt[j] != x {
          var m :| 0 <= m < |t| && t[m] == rt[j];
          assert t[m] == s[m + 1];
        }
      }
      ConsSorted(asc, key, s[0], rt);
    }
  }

  /** The sort arranges the elements in order. */
  lemma {:induction false} SortBySorted<T>(asc: bool, key: T -> Key, s: seq<T>)
    ensures Sorted(asc, key, SortBy(asc, key, s))
    decreases |s|
  {
    if s != [] {
      SortBySorted(asc, key, s[..|s| - 1]);
      InsertSorted(asc, key, s[|s| - 1], SortBy(asc, key, s[..|s| - 1]));
    }
  }

  /** The sort neither loses nor duplicates an element. */
  lemma {:induction false} SortByElements<T>(asc: bool, key: T -> Key, s: seq<T>)
    ensures multiset(SortBy(asc, key, s)) == multiset(s)
    decreases |s|
  {
    if s != [] {
      SortByElements(asc, key, s[..|s| - 1]);
      InsertElements(asc, key, s[|s| - 1], SortBy(asc, key, s[..|s| - 1]));
      assert s == s[..|s| - 1] + [s[|s| - 1]];
    }
  }

  /** Inserting `x` after all elements of its key appends it to that key's
      run and leaves the other keys' runs alone. */
  lemma {:induction false} InsertWithKey<T>(asc: bool, key: T -> Key, k: Key, x: T, s: seq<T>)
    requires Sorted(asc, key, s)
    ensures WithKey(key, k, Insert(asc, key, x, s)) ==
      WithKey(key, k, s) + (if key(x) == k then [x] else [])
    decreases |s|
  {
    if s == [] {
    } else if Before(asc, key(x), key(s[0])) {
      if key(x) == k {
        NoneWithKey(asc, key, x, s);
      }
      WithKeyConcat(key, k, [x], s);
      WithKeyConcat(key, k, s, []);
      assert s + [] == s;
    } else {
      InsertWithKey(asc, key, k, x, s[1..]);
    }
  }

  /** In a sorted sequence whose first element `x` goes strictly before,
      no element has the key of `x`. */
  lemma NoneWithKey<T>(asc: bool, key: T -> Key, x: T, s: seq<T>)
    requires Sorted(asc, key, s) && s != [] && Before(asc, key(x), key(s[0]))
    ensures WithKey(key, key(x), s) == []
  {
    BeforeIrreflexive(asc, key(x));
    forall i | 0 <= i < |s| ensures key(s[i]) != key(x) {
      if i > 0 {
        assert !Before(asc, key(s[i]), key(s[0]));
      }
    }
    WithKeyNone(key, key(x), s);
  }

  lemma {:induction false} WithKeyNone<T>(key: T -> Key, k: Key, s: seq<T>)
    requires forall i :: 0 <= i < |s| ==> key(s[i]) != k
    ensures WithKey(key, k, s) == []
    decreases |s|
  {
    if s != [] {
      WithKeyNone(key, k, s[1..]);
    }
  }

  /** The sort is stable: the cameras sharing a key come out in the order
      they went in. */
  lemma {:induction false} SortByStable<T>(asc: bool, key: T -> Key, k: Key, s: seq<T>)
    ensures WithKey(key, k, SortBy(asc, key, s)) == WithKey(key, k, s)
    decreases |s|
  {
    if s != [] {
      var init, x := s[..|s| - 1], s[|s| - 1];
      SortByStable(asc, key, k, init);
      SortBySorted(asc, key, init);
      InsertWithKey(asc, key, k, x, SortBy(asc, key, init));
      assert s == init + [x];
      WithKeyConcat(key, k, init, [x]);
    }
  }
}
