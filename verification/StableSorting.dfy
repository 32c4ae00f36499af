/** `Array.prototype.sort` with a numeric key: the stable ascending sort. */
module StableSorting {
  import opened Sequences

  predicate Ascending<T>(s: seq<T>, key: T -> int) {
    forall i, j :: 0 <= i < j < |s| ==> key(s[i]) <= key(s[j])
  }

  /** `x` goes behind every element whose key is not larger. */
  function Insert<T>(s: seq<T>, x: T, key: T -> int): seq<T> {
    if s == [] || key(s[|s| - 1]) <= key(x) then s + [x]
    else Insert(s[..|s| - 1], x, key) + [s[|s| - 1]]
  }

  function Sort<T>(s: seq<T>, key: T -> int): seq<T> {
    if s == [] then [] else Insert(Sort(s[..|s| - 1], key), s[|s| - 1], key)
  }

  /** The elements with key `k`, in order: what stability preserves. */
  function WithKey<T>(s: seq<T>, key: T -> int, k: int): seq<T> {
    if s == [] then []
    else WithKey(s[..|s| - 1], key, k) + if key(s[|s| - 1]) == k then [s[|s| - 1]] else []
  }

  function Keys<T>(s: seq<T>, key: T -> int): (r: seq<int>)
    ensures |r| == |s| && forall i :: 0 <= i < |s| ==> r[i] == key(s[i])
  {
    seq(|s|, i requires 0 <= i < |s| => key(s[i]))
  }

  function Negated<T>(key: T -> int): T -> int {
    x => -key(x)
  }

  function Identity(): int -> int {
    k => k
  }

  lemma {:induction false} InsertBound<T>(s: seq<T>, x: T, key: T -> int, bound: int)
    requires key(x) <= bound && forall i :: 0 <= i < |s| ==> key(s[i]) <= bound
    ensures forall i :: 0 <= i < |Insert(s, x, key)| ==> key(Insert(s, x, key)[i]) <= bound
  {
    if s != [] && key(s[|s| - 1]) > key(x) {
      InsertBound(s[..|s| - 1], x, key, bound);
    }
  }

  lemma {:induction false} InsertAscending<T>(s: seq<T>, x: T, key: T -> int)
    requires Ascending(s, key)
    ensures Ascending(Insert(s, x, key), key)
    ensures |Insert(s, x, key)| == |s| + 1
  {
    if s != [] && key(s[|s| - 1]) > key(x) {
      var n := |s| - 1;
      InsertAscending(s[..n], x, key);
      InsertBound(s[..n], x, key, key(s[n]));
      AppendAscending(Insert(s[..n], x, key), s[n], key);
    }
  }

  lemma AppendAscending<T>(s: seq<T>, x: T, key: T -> int)
    requires Ascending(s, key) && forall i :: 0 <= i < |s| ==> key(s[i]) <= key(x)
    ensures Ascending(s + [x], key)
  {
  }

  lemma {:induction false} SortAscending<T>(s: seq<T>, key: T -> int)
    ensures Ascending(Sort(s, key), key) && |Sort(s, key)| == |s|
  {
    if s != [] {
      SortAscending(s[..|s| - 1], key);
      InsertAscending(Sort(s[..|s| - 1], key), s[|s| - 1], key);
    }
  }

  lemma {:induction false} InsertMultiset<T>(s: seq<T>, x: T, key: T -> int)
    ensures multiset(Insert(s, x, key)) == multiset(s) + multiset{x}
  {
    if s != [] && key(s[|s| - 1]) > key(x) {
      InsertMultiset(s[..|s| - 1], x, key);
      SplitLast(s);
    }
  }

  lemma {:induction false} SortMultiset<T>(s: seq<T>, key: T -> int)
    ensures multiset(Sort(s, key)) == multiset(s)
  {
    if s != [] {
      SortMultiset(s[..|s| - 1], key);
      InsertMultiset(Sort(s[..|s| - 1], key), s[|s| - 1], key);
      SplitLast(s);
    }
  }

  /** A list already in order is left alone. */
  lemma {:induction false} SortOfAscending<T>(s: seq<T>, key: T -> int)
    requires Ascending(s, key)
    ensures Sort(s, key) == s
  {
    if s != [] {
      SortOfAscending(s[..|s| - 1], key);
      SplitLast(s);
    }
  }

  // -------------------------------------------------------------- stability

  lemma {:induction false} WithKeyIn<T>(s: seq<T>, key: T -> int, k: int)
    ensures WithKey(s, key, k) != [] <==> exists i :: 0 <= i < |s| && key(s[i]) == k
    ensures s != [] && key(s[|s| - 1]) == k ==> WithKey(s, key, k)[|WithKey(s, key, k)| - 1] == s[|s| - 1]
  {
    if s != [] {
      var n := |s| - 1;
      WithKeyIn(s[..n], key, k);
      if WithKey(s[..n], key, k) != [] {
        var i :| 0 <= i < n && key(s[..n][i]) == k;
        assert key(s[i]) == k;
      }
      if exists i :: 0 <= i < |s| && key(s[i]) == k {
        var i :| 0 <= i < |s| && key(s[i]) == k;
        if i < n {
          assert key(s[..n][i]) == k;
        }
      }
    }
  }

  lemma {:induction false} InsertStable<T>(s: seq<T>, x: T, key: T -> int, k: int)
    requires Ascending(s, key)
    ensures WithKey(Insert(s, x, key), key, k) == WithKey(s + [x], key, k)
  {
    TakeAppend(s, x);
    if s != [] && key(s[|s| - 1]) > key(x) {
      var n := |s| - 1;
      InsertStable(s[..n], x, key, k);
      TakeAppend(s[..n], x);
      TakeAppend(Insert(s[..n], x, key), s[n]);
      if k == key(s[n]) {
        assert WithKey(s[..n] + [x], key, k) == WithKey(s[..n], key, k);
      }
    }
  }

  lemma {:induction false} SortStable<T>(s: seq<T>, key: T -> int, k: int)
    ensures WithKey(Sort(s, key), key, k) == WithKey(s, key, k)
  {
    if s != [] {
      var n := |s| - 1;
      SortStable(s[..n], key, k);
      SortAscending(s[..n], key);
      InsertStable(Sort(s[..n], key), s[n], key, k);
      TakeAppend(Sort(s[..n], key), s[n]);
    }
  }

  lemma WithKeyInit<T>(a: seq<T>, b: seq<T>, key: T -> int, k: int)
    requires a != [] && b != [] && a[|a| - 1] == b[|b| - 1]
    requires WithKey(a, key, k) == WithKey(b, key, k)
    ensures WithKey(a[..|a| - 1], key, k) == WithKey(b[..|b| - 1], key, k)
  {
    if key(a[|a| - 1]) == k {
      TakeAppend(WithKey(a[..|a| - 1], key, k), a[|a| - 1]);
      TakeAppend(WithKey(b[..|b| - 1], key, k), b[|b| - 1]);
    } else {
      assert WithKey(a, key, k) == WithKey(a[..|a| - 1], key, k);
      assert WithKey(b, key, k) == WithKey(b[..|b| - 1], key, k);
    }
  }

  lemma KeyBelowTop<T>(s: seq<T>, key: T -> int, k: int)
    requires Ascending(s, key) && WithKey(s, key, k) != []
    ensures s != [] && k <= key(s[|s| - 1])
  {
    WithKeyIn(s, key, k);
  }

  lemma LastWithKey<T>(s: seq<T>, key: T -> int)
    requires s != []
    ensures var w := WithKey(s, key, key(s[|s| - 1])); w != [] && w[|w| - 1] == s[|s| - 1]
  {
  }

  lemma SameTop<T>(a: seq<T>, b: seq<T>, key: T -> int)
    requires Ascending(a, key) && Ascending(b, key) && a != []
    requires forall k :: WithKey(a, key, k) == WithKey(b, key, k)
    ensures b != [] && a[|a| - 1] == b[|b| - 1]
  {
    LastWithKey(a, key);
    KeyBelowTop(b, key, key(a[|a| - 1]));
    LastWithKey(b, key);
    KeyBelowTop(a, key, key(b[|b| - 1]));
  }

  /** An ascending list is determined by the order of its equal-key elements. */
  lemma {:induction false} AscendingUnique<T>(a: seq<T>, b: seq<T>, key: T -> int)
    requires Ascending(a, key) && Ascending(b, key)
    requires forall k :: WithKey(a, key, k) == WithKey(b, key, k)
    ensures a == b
    decreases |a|
  {
    if a == [] {
      if b != [] {
        WithKeyIn(b, key, key(b[0]));
        WithKeyIn(a, key, key(b[0]));
      }
    } else {
      var n := |a| - 1;
      var m := |b| - 1;
      SameTop(a, b, key);
      forall k
        ensures WithKey(a[..n], key, k) == WithKey(b[..m], key, k)
      {
        WithKeyInit(a, b, key, k);
      }
      AscendingUnique(a[..n], b[..m], key);
      SplitLast(a);
      SplitLast(b);
    }
  }

  lemma SortDetermined<T>(a: seq<T>, b: seq<T>, key: T -> int)
    requires forall k :: WithKey(a, key, k) == WithKey(b, key, k)
    ensures Sort(a, key) == Sort(b, key)
  {
    SortAscending(a, key);
    SortAscending(b, key);
    forall k
      ensures WithKey(Sort(a, key), key, k) == WithKey(Sort(b, key), key, k)
    {
      SortStable(a, key, k);
      SortStable(b, key, k);
      assert WithKey(a, key, k) == WithKey(b, key, k);
    }
    AscendingUnique(Sort(a, key), Sort(b, key), key);
  }

  lemma {:induction false} WithKeyNegated<T>(s: seq<T>, key: T -> int, k: int)
    ensures WithKey(s, Negated(key), -k) == WithKey(s, key, k)
  {
    if s != [] {
      WithKeyNegated(s[..|s| - 1], key, k);
    }
  }

  /** Sorting descending and then ascending is sorting ascending. */
  lemma SortDescendingFirst<T>(s: seq<T>, key: T -> int)
    ensures Sort(Sort(s, Negated(key)), key) == Sort(s, key)
  {
    var d := Sort(s, Negated(key));
    forall k
      ensures WithKey(d, key, k) == WithKey(s, key, k)
    {
      WithKeyNegated(d, key, k);
      WithKeyNegated(s, key, k);
      SortStable(s, Negated(key), -k);
    }
    SortDetermined(d, s, key);
  }

  // ----------------------------------------------------- keys, and suffixes

  lemma {:induction false} InsertKeys<T>(s: seq<T>, x: T, key: T -> int)
    ensures Keys(Insert(s, x, key), key) == Insert(Keys(s, key), key(x), Identity())
  {
    if s != [] && key(s[|s| - 1]) > key(x) {
      var n := |s| - 1;
      InsertKeys(s[..n], x, key);
      assert Keys(s, key)[..n] == Keys(s[..n], key);
      assert Keys(Insert(s, x, key), key) == Keys(Insert(s[..n], x, key), key) + [key(s[n])];
    } else {
      assert Keys(s + [x], key) == Keys(s, key) + [key(x)];
    }
  }

  lemma {:induction false} SortKeys<T>(s: seq<T>, key: T -> int)
    ensures Keys(Sort(s, key), key) == Sort(Keys(s, key), Identity())
  {
    if s != [] {
      var n := |s| - 1;
      SortKeys(s[..n], key);
      InsertKeys(Sort(s[..n], key), s[n], key);
      assert Keys(s, key)[..n] == Keys(s[..n], key);
    }
  }

  /** Dropping the smallest after inserting into the top of a sorted list keeps the
      top of the whole list with the element inserted. */
  lemma {:induction false} InsertIntoTop<T>(s: seq<T>, x: T, key: T -> int, n: nat)
    requires n <= |s|
    ensures |Insert(s, x, key)| == |s| + 1 && |Insert(s[|s| - n..], x, key)| == n + 1
    ensures Insert(s, x, key)[|s| + 1 - n..] == Insert(s[|s| - n..], x, key)[1..]
    decreases |s|
  {
    InsertLength(s, x, key);
    InsertLength(s[|s| - n..], x, key);
    if n > 0 {
      var m := |s| - 1;
      var top := s[|s| - n..];
      assert top[n - 1] == s[m];
      if key(s[m]) > key(x) {
        InsertIntoTop(s[..m], x, key, n - 1);
        InsertLength(s[..m], x, key);
        assert s[..m][m - (n - 1)..] == top[..n - 1];
        DropAppend(Insert(s[..m], x, key), s[m], m + 1 - (n - 1));
        DropAppend(Insert(top[..n - 1], x, key), s[m], 1);
      } else {
        DropAppend(s, x, |s| + 1 - n);
        DropAppend(top, x, 1);
        assert s[|s| + 1 - n..] == top[1..];
      }
    }
  }

  lemma {:induction false} InsertLength<T>(s: seq<T>, x: T, key: T -> int)
    ensures |Insert(s, x, key)| == |s| + 1
  {
    if s != [] {
      InsertLength(s[..|s| - 1], x, key);
    }
  }
}
