/** Rust's `sort_by_key`: a stable sort by a key compared lexicographically. Tuple keys
    such as `(0, len)` / `(1, 0)` use both components; scalar keys leave `minor` at 0. */
module StableSort {

  datatype Key = Key(major: int, minor: int)

  predicate KeyLe(a: Key, b: Key) {
    a.major < b.major || (a.major == b.major && a.minor <= b.minor)
  }

  predicate SortedBy<T>(s: seq<T>, key: T -> Key) {
    forall i, j :: 0 <= i < j < |s| ==> KeyLe(key(s[i]), key(s[j]))
  }

  /** Places `x` after every element whose key is not greater than its own. */
  function Insert<T>(r: seq<T>, x: T, key: T -> Key): (q: seq<T>)
    ensures |q| == |r| + 1
    ensures multiset(q) == multiset(r) + multiset{x}
    decreases |r|
  {
    if |r| == 0 then [x]
    else if KeyLe(key(r[|r| - 1]), key(x)) then r + [x]
    else
      var init := r[..|r| - 1];
      assert r == init + [r[|r| - 1]];
      Insert(init, x, key) + [r[|r| - 1]]
  }

  /** `sort_by_key`: insertion sort, element by element in input order. */
  function SortByKey<T>(s: seq<T>, key: T -> Key): (r: seq<T>)
    ensures |r| == |s|
    ensures multiset(r) == multiset(s)
  {
    if |s| == 0 then []
    else
      assert s == s[..|s| - 1] + [s[|s| - 1]];
      Insert(SortByKey(s[..|s| - 1], key), s[|s| - 1], key)
  }

  lemma {:induction false} InsertSorted<T>(r: seq<T>, x: T, key: T -> Key)
    requires SortedBy(r, key)
    ensures SortedBy(Insert(r, x, key), key)
    decreases |r|
  {
    if |r| > 0 && !KeyLe(key(r[|r| - 1]), key(x)) {
      var init := r[..|r| - 1];
      InsertSorted(init, x, key);
      var q := Insert(init, x, key);
      assert forall k :: 0 <= k < |q| ==> q[k] == x || q[k] in multiset(init) by {
        forall k | 0 <= k < |q| ensures q[k] == x || q[k] in multiset(init) {
          assert q[k] in multiset(q);
        }
      }
      forall k | 0 <= k < |q| ensures KeyLe(key(q[k]), key(r[|r| - 1])) {
        if q[k] != x {
          assert q[k] in multiset(init);
          var j :| 0 <= j < |init| && init[j] == q[k];
        }
      }
    }
  }

  /** The sorted sequence is ordered by key. */
  lemma {:induction false} SortSorted<T>(s: seq<T>, key: T -> Key)
    ensures SortedBy(SortByKey(s, key), key)
  {
    if |s| > 0 {
      SortSorted(s[..|s| - 1], key);
      InsertSorted(SortByKey(s[..|s| - 1], key), s[|s| - 1], key);
    }
  }

  /** The elements with key `k`, in order. */
  function WithKey<T>(s: seq<T>, key: T -> Key, k: Key): seq<T> {
    if |s| == 0 then []
    else WithKey(s[..|s| - 1], key, k) + (if key(s[|s| - 1]) == k then [s[|s| - 1]] else [])
  }

  lemma {:induction false} WithKeySnoc<T>(s: seq<T>, x: T, key: T -> Key, k: Key)
    ensures WithKey(s + [x], key, k) == WithKey(s, key, k) + (if key(x) == k then [x] else [])
  {
    assert (s + [x])[..|s|] == s;
  }

  lemma {:induction false} InsertStable<T>(r: seq<T>, x: T, key: T -> Key, k: Key)
    ensures WithKey(Insert(r, x, key), key, k) == WithKey(r + [x], key, k)
    decreases |r|
  {
    if |r| > 0 && !KeyLe(key(r[|r| - 1]), key(x)) {
      var init, last := r[..|r| - 1], r[|r| - 1];
      assert r == init + [last];
      InsertStable(init, x, key, k);
      WithKeySnoc(Insert(init, x, key), last, key, k);
      WithKeySnoc(init, x, key, k);
      WithKeySnoc(init, last, key, k);
      WithKeySnoc(r, x, key, k);
    }
  }

  /** Stability: the elements sharing any one key keep their input order. */
  lemma {:induction false} SortStable<T>(s: seq<T>, key: T -> Key, k: Key)
    ensures WithKey(SortByKey(s, key), key, k) == WithKey(s, key, k)
  {
    if |s| > 0 {
      var init, x := s[..|s| - 1], s[|s| - 1];
      assert s == init + [x];
      var sorted := SortByKey(init, key);
      assert SortByKey(s, key) == Insert(sorted, x, key);
      SortStable(init, key, k);
      InsertStable(sorted, x, key, k);
      WithKeySnoc(sorted, x, key, k);
      WithKeySnoc(init, x, key, k);
    }
  }

  lemma {:induction false} WithKeyIn<T>(s: seq<T>, key: T -> Key, k: Key)
    ensures forall x :: x in WithKey(s, key, k) ==> x in s && key(x) == k
  {
    if |s| > 0 {
      WithKeyIn(s[..|s| - 1], key, k);
    }
  }

  lemma {:induction false} WithKeyNone<T>(s: seq<T>, key: T -> Key, k: Key)
    requires forall j :: 0 <= j < |s| ==> key(s[j]) != k
    ensures WithKey(s, key, k) == []
  {
    if |s| > 0 {
      WithKeyNone(s[..|s| - 1], key, k);
    }
  }

  /** The first element with key `k` heads the elements with that key. */
  lemma {:induction false} WithKeyFirst<T>(s: seq<T>, key: T -> Key, k: Key, i: nat)
    requires i < |s| && key(s[i]) == k && forall j :: 0 <= j < i ==> key(s[j]) != k
    ensures |WithKey(s, key, k)| > 0 && WithKey(s, key, k)[0] == s[i]
  {
    var init := s[..|s| - 1];
    if i == |s| - 1 {
      WithKeyNone(init, key, k);
    } else {
      WithKeyFirst(init, key, k, i);
    }
  }

  /** The last element with key `k` ends the elements with that key. */
  lemma {:induction false} WithKeyLast<T>(s: seq<T>, key: T -> Key, k: Key, i: nat)
    requires i < |s| && key(s[i]) == k && forall j :: i < j < |s| ==> key(s[j]) != k
    ensures |WithKey(s, key, k)| > 0 && WithKey(s, key, k)[|WithKey(s, key, k)| - 1] == s[i]
  {
    if i < |s| - 1 {
      WithKeyLast(s[..|s| - 1], key, k, i);
    }
  }

  /** The head of the elements with key `k` comes no later than any element with that key. */
  lemma {:induction false} WithKeyHeadBefore<T>(s: seq<T>, key: T -> Key, k: Key, j: nat)
    requires j < |s| && key(s[j]) == k
    ensures |WithKey(s, key, k)| > 0 && WithKey(s, key, k)[0] in s[..j + 1]
  {
    var init := s[..|s| - 1];
    if j < |s| - 1 {
      WithKeyHeadBefore(init, key, k, j);
      assert init[..j + 1] == s[..j + 1];
    } else if |WithKey(init, key, k)| > 0 {
      WithKeyIn(init, key, k);
      assert WithKey(init, key, k)[0] in init;
      assert s[..j + 1] == init + [s[j]];
    }
  }

  /** The tail of the elements with key `k` comes no earlier than any element with that key. */
  lemma {:induction false} WithKeyLastAfter<T>(s: seq<T>, key: T -> Key, k: Key, j: nat)
    requires j < |s| && key(s[j]) == k
    ensures |WithKey(s, key, k)| > 0 && WithKey(s, key, k)[|WithKey(s, key, k)| - 1] in s[j..]
  {
    var init := s[..|s| - 1];
    if key(s[|s| - 1]) != k {
      WithKeyLastAfter(init, key, k, j);
      assert s[j..] == init[j..] + [s[|s| - 1]];
    }
  }
}
