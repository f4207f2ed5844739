/**
 * `list.sort(key=key, reverse=True)`: Python's sort is stable, also when
 * reversed, so elements with equal keys keep their relative order while the
 * keys come out largest first.
 */
module StableSort {

  predicate NonIncreasing<T>(s: seq<T>, key: T -> int) {
    forall i, j :: 0 <= i < j < |s| ==> key(s[i]) >= key(s[j])
  }

  /** The elements of `s` whose key is `k`, in their order in `s`. */
  function WithKey<T>(s: seq<T>, key: T -> int, k: int): seq<T> {
    if s == [] then []
    else (if key(s[0]) == k then [s[0]] else []) + WithKey(s[1..], key, k)
  }

  /**
   * `t` is what the stable descending sort makes of `s`: keys never increase
   * along `t`, and the elements sharing any one key appear in `t` in the
   * order they have in `s`.
   */
  ghost predicate StablySorted<T>(s: seq<T>, t: seq<T>, key: T -> int) {
    NonIncreasing(t, key) && forall k :: WithKey(t, key, k) == WithKey(s, key, k)
  }

  /** Places `x` after every element whose key is at least its own. */
  function Insert<T>(t: seq<T>, x: T, key: T -> int): seq<T> {
    if t == [] then [x]
    else if key(t[0]) < key(x) then [x] + t
    else [t[0]] + Insert(t[1..], x, key)
  }

  /** The stable descending sort, inserting one element at a time in the order of `s`. */
  function SortDescending<T>(s: seq<T>, key: T -> int): seq<T> {
    if s == [] then [] else Insert(SortDescending(s[..|s| - 1], key), s[|s| - 1], key)
  }

  // ---------------------------------------------------------------------------
  // Key classes
  // ---------------------------------------------------------------------------

  lemma {:induction false} WithKeyConcat<T>(a: seq<T>, b: seq<T>, key: T -> int, k: int)
    ensures WithKey(a + b, key, k) == WithKey(a, key, k) + WithKey(b, key, k)
  {
    if a != [] {
      var h := if key(a[0]) == k then [a[0]] else [];
      calc {
        WithKey(a + b, key, k);
      ==  { assert (a + b)[0] == a[0]; assert (a + b)[1..] == a[1..] + b; }
        h + WithKey(a[1..] + b, key, k);
      ==  { WithKeyConcat(a[1..], b, key, k); }
        h + (WithKey(a[1..], key, k) + WithKey(b, key, k));
      ==
        (h + WithKey(a[1..], key, k)) + WithKey(b, key, k);
      }
    } else {
      assert a + b == b;
    }
  }

  lemma {:induction false} WithKeyAbsent<T>(s: seq<T>, key: T -> int, k: int)
    requires forall i :: 0 <= i < |s| ==> key(s[i]) != k
    ensures WithKey(s, key, k) == []
  {
    if s != [] {
      WithKeyAbsent(s[1..], key, k);
    }
  }

  /** Each element is counted in the class of its own key, as often as in `s`. */
  lemma {:induction false} WithKeyCounts<T>(s: seq<T>, key: T -> int, x: T)
    ensures multiset(WithKey(s, key, key(x)))[x] == multiset(s)[x]
  {
    if s != [] {
      assert s == [s[0]] + s[1..];
      WithKeyCounts(s[1..], key, x);
    }
  }

  /** A stable sort is a permutation. */
  lemma StablySortedPermutes<T>(s: seq<T>, t: seq<T>, key: T -> int)
    requires StablySorted(s, t, key)
    ensures multiset(t) == multiset(s)
  {
    forall x ensures multiset(t)[x] == multiset(s)[x] {
      WithKeyCounts(s, key, x);
      WithKeyCounts(t, key, x);
    }
  }

  // ---------------------------------------------------------------------------
  // The sort function
  // ---------------------------------------------------------------------------

  lemma {:induction false} InsertPermutes<T>(t: seq<T>, x: T, key: T -> int)
    ensures multiset(Insert(t, x, key)) == multiset(t) + multiset{x}
  {
    if t != [] && key(t[0]) >= key(x) {
      InsertPermutes(t[1..], x, key);
      assert t == [t[0]] + t[1..];
    }
  }

  lemma {:induction false} InsertSorted<T>(t: seq<T>, x: T, key: T -> int)
    requires NonIncreasing(t, key)
    ensures NonIncreasing(Insert(t, x, key), key)
  {
    if t == [] {
    } else if key(t[0]) < key(x) {
      var r := [x] + t;
      forall i, j | 0 <= i < j < |r| ensures key(r[i]) >= key(r[j]) {
        if i == 0 {
          assert r[j] == t[j - 1];
        } else {
          assert r[i] == t[i - 1] && r[j] == t[j - 1];
        }
      }
    } else {
      var rest := Insert(t[1..], x, key);
      InsertSorted(t[1..], x, key);
      InsertPermutes(t[1..], x, key);
      var r := [t[0]] + rest;
      forall i, j | 0 <= i < j < |r| ensures key(r[i]) >= key(r[j]) {
        if i == 0 {
          assert r[j] == rest[j - 1];
          assert rest[j - 1] in multiset(rest);
        } else {
          assert r[i] == rest[i - 1] && r[j] == rest[j - 1];
        }
      }
      assert Insert(t, x, key) == r;
    }
  }

  lemma {:induction false} InsertClass<T>(t: seq<T>, x: T, key: T -> int, k: int)
    requires NonIncreasing(t, key)
    ensures WithKey(Insert(t, x, key), key, k) == WithKey(t, key, k) + (if key(x) == k then [x] else [])
  {
    var hx := if key(x) == k then [x] else [];
    assert WithKey([x], key, k) == hx + WithKey([], key, k);
    if t == [] {
    } else if key(t[0]) < key(x) {
      WithKeyConcat([x], t, key, k);
      if key(x) == k {
        assert forall i :: 0 <= i < |t| ==> key(t[i]) <= key(t[0]);
        WithKeyAbsent(t, key, k);
      }
    } else {
      var rest := Insert(t[1..], x, key);
      assert NonIncreasing(t[1..], key);
      InsertClass(t[1..], x, key, k);
      assert t == [t[0]] + t[1..];
      WithKeyConcat([t[0]], t[1..], key, k);
      WithKeyConcat([t[0]], rest, key, k);
    }
  }

  /** `SortDescending` is a stable descending sort. */
  lemma {:induction false} SortDescendingIsStable<T>(s: seq<T>, key: T -> int)
    ensures StablySorted(s, SortDescending(s, key), key)
  {
    if s != [] {
      var init, last := s[..|s| - 1], s[|s| - 1];
      SortDescendingIsStable(init, key);
      InsertSorted(SortDescending(init, key), last, key);
      assert s == init + [last];
      forall k ensures WithKey(SortDescending(s, key), key, k) == WithKey(s, key, k) {
        InsertClass(SortDescending(init, key), last, key, k);
        WithKeyConcat(init, [last], key, k);
        assert WithKey([last], key, k) == (if key(last) == k then [last] else []) + WithKey([], key, k);
      }
    }
  }

  /** A stable sort has only one possible outcome. */
  lemma StableSortUnique<T>(s: seq<T>, t: seq<T>, u: seq<T>, key: T -> int)
    requires StablySorted(s, t, key) && StablySorted(s, u, key)
    ensures t == u
  {
    SameClassesSameOrder(t, u, key);
  }

  /** A non-empty sequence's first element heads its own key class. */
  lemma HeadClass<T>(s: seq<T>, key: T -> int)
    ensures s != [] ==> WithKey(s, key, key(s[0])) == [s[0]] + WithKey(s[1..], key, key(s[0]))
  {
  }

  /** A key larger than the first one has no elements in a non-increasing sequence. */
  lemma ClassAboveHead<T>(s: seq<T>, key: T -> int, k: int)
    requires NonIncreasing(s, key)
    ensures s != [] && k > key(s[0]) ==> WithKey(s, key, k) == []
  {
    if s != [] && k > key(s[0]) {
      WithKeyAbsent(s, key, k);
    }
  }

  lemma {:induction false} SameClassesSameOrder<T>(t: seq<T>, u: seq<T>, key: T -> int)
    requires NonIncreasing(t, key) && NonIncreasing(u, key)
    requires forall k :: WithKey(t, key, k) == WithKey(u, key, k)
    ensures t == u
  {
    HeadClass(t, key);
    HeadClass(u, key);
    if t != [] && u != [] {
      var x, y := t[0], u[0];
      ClassAboveHead(u, key, key(x));
      ClassAboveHead(t, key, key(y));
      assert key(x) == key(y);
      assert x == y;
      forall k ensures WithKey(t[1..], key, k) == WithKey(u[1..], key, k) {
        var h := if key(x) == k then [x] else [];
        assert WithKey(t, key, k) == h + WithKey(t[1..], key, k);
        assert WithKey(u, key, k) == h + WithKey(u[1..], key, k);
        assert WithKey(t[1..], key, k) == WithKey(t, key, k)[|h|..];
        assert WithKey(u[1..], key, k) == WithKey(u, key, k)[|h|..];
      }
      SameClassesSameOrder(t[1..], u[1..], key);
      assert t == [x] + t[1..] && u == [y] + u[1..];
    }
  }

  // ---------------------------------------------------------------------------
  // The sort as Python runs it, in place
  // ---------------------------------------------------------------------------

  function Swapped<T>(s: seq<T>, j: nat): seq<T>
    requires 0 < j < |s|
  {
    s[j - 1 := s[j]][j := s[j - 1]]
  }

  /** Swapping two neighbours with different keys keeps every key class as it was. */
  lemma SwapKeepsClasses<T>(s: seq<T>, j: nat, key: T -> int)
    requires 0 < j < |s| && key(s[j - 1]) != key(s[j])
    ensures forall k :: WithKey(Swapped(s, j), key, k) == WithKey(s, key, k)
  {
    var pre, post := s[..j - 1], s[j + 1..];
    var xy, yx := [s[j - 1], s[j]], [s[j], s[j - 1]];
    assert s == pre + xy + post;
    assert Swapped(s, j) == pre + yx + post;
    forall k ensures WithKey(Swapped(s, j), key, k) == WithKey(s, key, k) {
      WithKeyConcat(pre + xy, post, key, k);
      WithKeyConcat(pre, xy, key, k);
      WithKeyConcat(pre + yx, post, key, k);
      WithKeyConcat(pre, yx, key, k);
      assert xy[1..] == [s[j]] && yx[1..] == [s[j - 1]];
      assert WithKey(xy, key, k) == WithKey(yx, key, k);
    }
  }

  /**
   * `a.sort(key=key, reverse=True)` done as an insertion sort: an element
   * moves towards the front only past elements with a strictly smaller key.
   */
  method SortInPlace<T>(a: array<T>, key: T -> int)
    modifies a
    ensures a[..] == SortDescending(old(a[..]), key)
  {
    var i := 0;
    while i < a.Length
      invariant 0 <= i <= a.Length
      invariant forall l, m :: 0 <= l < m < i ==> key(a[l]) >= key(a[m])
      invariant forall k :: WithKey(a[..], key, k) == WithKey(old(a[..]), key, k)
    {
      var j := i;
      while j > 0 && key(a[j - 1]) < key(a[j])
        invariant 0 <= j <= i
        invariant forall l, m :: 0 <= l < m <= i && m != j ==> key(a[l]) >= key(a[m])
        invariant forall k :: WithKey(a[..], key, k) == WithKey(old(a[..]), key, k)
      {
        ghost var before := a[..];
        SwapKeepsClasses(before, j, key);
        a[j - 1], a[j] := a[j], a[j - 1];
        assert a[..] == Swapped(before, j);
        j := j - 1;
      }
      i := i + 1;
    }
    SortDescendingIsStable(old(a[..]), key);
    StableSortUnique(old(a[..]), a[..], SortDescending(old(a[..]), key), key);
  }
}
