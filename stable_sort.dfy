/** The stable sort that `Array.prototype.sort` performs with a comparator.
    `before(a, b)` holds when the comparator puts `a` strictly ahead of `b`
    (returns a negative number); when it returns zero or NaN neither is
    ahead and a stable sort keeps their input order. The sort below inserts
    the elements one at a time, each after every element it is not strictly
    ahead of. When the comparator orders elements by a key, every stable sort
    produces the same sequence, so the properties proved here hold of the
    engine's sort as well. */
module StableSort {
  import opened Seqs
  import LexOrder

  function Insert<T>(x: T, s: seq<T>, before: (T, T) -> bool): (r: seq<T>)
    ensures multiset(r) == multiset(s) + multiset{x}
  {
    if s == [] || before(x, s[0]) then [x] + s
    else
      assert s == [s[0]] + s[1..];
      [s[0]] + Insert(x, s[1..], before)
  }

  function Sort<T>(s: seq<T>, before: (T, T) -> bool): (r: seq<T>)
    ensures |r| == |s|
    ensures multiset(r) == multiset(s)
  {
    if s == [] then []
    else
      assert s == s[..|s| - 1] + [s[|s| - 1]];
      assert |multiset(Insert(s[|s| - 1], Sort(s[..|s| - 1], before), before))| == |s|;
      Insert(s[|s| - 1], Sort(s[..|s| - 1], before), before)
  }

  /** The comparator orders the elements of `s` by `key`. */
  ghost predicate Keyed<T>(before: (T, T) -> bool, key: T -> seq<int>, s: seq<T>) {
    forall a, b | a in s && b in s :: before(a, b) == LexOrder.Less(key(a), key(b))
  }

  lemma KeyedSub<T(!new)>(before: (T, T) -> bool, key: T -> seq<int>, s: seq<T>, t: seq<T>)
    requires Keyed(before, key, s)
    requires forall y :: y in t ==> y in s
    ensures Keyed(before, key, t)
  {
  }

  lemma SortMembers<T>(s: seq<T>, before: (T, T) -> bool)
    ensures forall y :: y in Sort(s, before) <==> y in s
  {
    var r := Sort(s, before);
    forall y ensures y in r <==> y in s {
      assert y in r <==> y in multiset(r);
      assert y in s <==> y in multiset(s);
    }
  }

  lemma InsertMembers<T>(x: T, s: seq<T>, before: (T, T) -> bool)
    ensures forall y :: y in Insert(x, s, before) <==> y in s || y == x
  {
    var r := Insert(x, s, before);
    forall y ensures y in r <==> y in s || y == x {
      assert y in r <==> y in multiset(r);
      assert y in s <==> y in multiset(s);
    }
  }

  predicate SortedBy<T>(s: seq<T>, key: T -> seq<int>) {
    forall i, j :: 0 <= i < j < |s| ==> !LexOrder.Less(key(s[j]), key(s[i]))
  }

  /** The elements of `s` whose key is `k`, in order. */
  function WithKey<T>(s: seq<T>, k: seq<int>, key: T -> seq<int>): seq<T> {
    if s == [] then [] else (if key(s[0]) == k then [s[0]] else []) + WithKey(s[1..], k, key)
  }

  lemma {:induction false} WithKeyAppend<T>(a: seq<T>, b: seq<T>, k: seq<int>, key: T -> seq<int>)
    ensures WithKey(a + b, k, key) == WithKey(a, k, key) + WithKey(b, k, key)
  {
    if a == [] {
      assert a + b == b;
    } else {
      var ab := a + b;
      var head := if key(a[0]) == k then [a[0]] else [];
      assert ab[0] == a[0] && ab[1..] == a[1..] + b;
      WithKeyAppend(a[1..], b, k, key);
      calc {
        WithKey(ab, k, key);
        head + WithKey(a[1..] + b, k, key);
        head + (WithKey(a[1..], k, key) + WithKey(b, k, key));
        (head + WithKey(a[1..], k, key)) + WithKey(b, k, key);
        WithKey(a, k, key) + WithKey(b, k, key);
      }
    }
  }

  lemma WithKeyCons<T>(y: T, t: seq<T>, k: seq<int>, key: T -> seq<int>)
    ensures WithKey([y] + t, k, key) == (if key(y) == k then [y] else []) + WithKey(t, k, key)
  {
    assert ([y] + t)[0] == y && ([y] + t)[1..] == t;
  }

  lemma WithKeyHead<T>(s: seq<T>, k: seq<int>, key: T -> seq<int>)
    requires s != []
    ensures WithKey(s, k, key) == (if key(s[0]) == k then [s[0]] else []) + WithKey(s[1..], k, key)
  {
  }

  lemma ConcatAssoc<T>(a: seq<T>, b: seq<T>, c: seq<T>)
    ensures a + (b + c) == (a + b) + c
  {
  }

  lemma {:induction false} WithKeyNone<T>(s: seq<T>, k: seq<int>, key: T -> seq<int>)
    requires forall y :: y in s ==> LexOrder.Less(k, key(y))
    ensures WithKey(s, k, key) == []
  {
    if s != [] {
      LexOrder.Irreflexive(k);
      assert s[0] in s;
      assert forall y :: y in s[1..] ==> y in s;
      WithKeyNone(s[1..], k, key);
    }
  }

  lemma {:induction false} InsertSorted<T(!new)>(x: T, s: seq<T>, before: (T, T) -> bool, key: T -> seq<int>)
    requires SortedBy(s, key)
    requires Keyed(before, key, s + [x])
    ensures SortedBy(Insert(x, s, before), key)
  {
    assert x in s + [x];
    if s == [] {
    } else if before(x, s[0]) {
      assert s[0] in s + [x];
      forall j | 0 <= j < |s|
        ensures !LexOrder.Less(key(s[j]), key(x))
      {
        if j > 0 {
          LexOrder.LessLeq(key(x), key(s[0]), key(s[j]));
        }
        LexOrder.Asymmetric(key(x), key(s[j]));
      }
    } else {
      assert forall y :: y in s[1..] + [x] ==> y in s + [x];
      InsertSorted(x, s[1..], before, key);
      InsertBehindSorted(x, s, before, key);
    }
  }

  /** The case of `InsertSorted` where `x` goes behind `s[0]`, given the
      property for `s[1..]`. */
  lemma InsertBehindSorted<T(!new)>(x: T, s: seq<T>, before: (T, T) -> bool, key: T -> seq<int>)
    requires SortedBy(s, key) && s != []
    requires Keyed(before, key, s + [x]) && !before(x, s[0])
    requires SortedBy(Insert(x, s[1..], before), key)
    ensures SortedBy(Insert(x, s, before), key)
  {
    assert x in s + [x] && s[0] in s + [x];
    var rest := Insert(x, s[1..], before);
    forall y | y in rest
      ensures !LexOrder.Less(key(y), key(s[0]))
    {
      assert y in multiset(rest);
      if y != x {
        assert y in s[1..];
      }
    }
    assert Insert(x, s, before) == [s[0]] + rest;
  }

  lemma {:induction false} SortSorted<T(!new)>(s: seq<T>, before: (T, T) -> bool, key: T -> seq<int>)
    requires Keyed(before, key, s)
    ensures SortedBy(Sort(s, before), key)
  {
    if s != [] {
      var init := s[..|s| - 1];
      assert s == init + [s[|s| - 1]];
      assert forall y :: y in init ==> y in s;
      SortSorted(init, before, key);
      var sorted := Sort(init, before);
      assert forall y :: y in sorted ==> y in s by {
        forall y | y in sorted ensures y in s {
          assert y in multiset(sorted);
        }
      }
      assert forall y :: y in sorted + [s[|s| - 1]] ==> y in s;
      InsertSorted(s[|s| - 1], sorted, before, key);
    }
  }

  lemma {:induction false} InsertWithKey<T(!new)>(x: T, s: seq<T>, before: (T, T) -> bool, key: T -> seq<int>, k: seq<int>)
    requires SortedBy(s, key)
    requires Keyed(before, key, s + [x])
    ensures WithKey(Insert(x, s, before), k, key) == WithKey(s, k, key) + (if key(x) == k then [x] else [])
  {
    assert x in s + [x];
    if s == [] {
    } else if before(x, s[0]) {
      InsertAheadWithKey(x, s, before, key, k);
    } else {
      assert forall y :: y in s[1..] + [x] ==> y in s + [x];
      InsertWithKey(x, s[1..], before, key, k);
      InsertBehindWithKey(x, s, before, key, k);
    }
  }

  /** The case of `InsertWithKey` where `x` goes behind `s[0]`, given the
      property for `s[1..]`. */
  lemma InsertBehindWithKey<T>(x: T, s: seq<T>, before: (T, T) -> bool, key: T -> seq<int>, k: seq<int>)
    requires s != [] && !before(x, s[0])
    requires WithKey(Insert(x, s[1..], before), k, key) == WithKey(s[1..], k, key) + (if key(x) == k then [x] else [])
    ensures WithKey(Insert(x, s, before), k, key) == WithKey(s, k, key) + (if key(x) == k then [x] else [])
  {
    var rest := Insert(x, s[1..], before);
    var head := if key(s[0]) == k then [s[0]] else [];
    var tail := if key(x) == k then [x] else [];
    var mid := WithKey(s[1..], k, key);
    InsertBehindUnfold(x, s, before);
    WithKeyCons(s[0], rest, k, key);
    assert WithKey(Insert(x, s, before), k, key) == head + (mid + tail);
    WithKeyHead(s, k, key);
    ConcatAssoc(head, mid, tail);
  }

  lemma InsertBehindUnfold<T>(x: T, s: seq<T>, before: (T, T) -> bool)
    requires s != [] && !before(x, s[0])
    ensures Insert(x, s, before) == [s[0]] + Insert(x, s[1..], before)
  {
  }

  /** The case of `InsertWithKey` where `x` goes in front: every element
      behind it has a larger key. */
  lemma InsertAheadWithKey<T(!new)>(x: T, s: seq<T>, before: (T, T) -> bool, key: T -> seq<int>, k: seq<int>)
    requires SortedBy(s, key)
    requires Keyed(before, key, s + [x])
    requires s != [] && before(x, s[0])
    ensures WithKey(Insert(x, s, before), k, key) == WithKey(s, k, key) + (if key(x) == k then [x] else [])
  {
    assert x in s + [x] && s[0] in s + [x];
    assert LexOrder.Less(key(x), key(s[0]));
    if key(x) == k {
      forall y | y in s
        ensures LexOrder.Less(k, key(y))
      {
        var j :| 0 <= j < |s| && s[j] == y;
        if j > 0 {
          LexOrder.LessLeq(key(x), key(s[0]), key(s[j]));
        }
      }
      WithKeyNone(s, k, key);
    }
    assert Insert(x, s, before) == [x] + s;
    assert ([x] + s)[1..] == s;
  }

  /** Stability: for every key, the elements with that key leave the sort in
      the order in which they entered it. */
  lemma {:induction false} SortStable<T(!new)>(s: seq<T>, before: (T, T) -> bool, key: T -> seq<int>, k: seq<int>)
    requires Keyed(before, key, s)
    ensures WithKey(Sort(s, before), k, key) == WithKey(s, k, key)
  {
    if s != [] {
      var init, last := s[..|s| - 1], s[|s| - 1];
      assert s == init + [last];
      KeyedSub(before, key, s, init);
      SortStable(init, before, key, k);
      SortSorted(init, before, key);
      var sorted := Sort(init, before);
      SortMembers(init, before);
      KeyedSub(before, key, s, sorted + [last]);
      InsertWithKey(last, sorted, before, key, k);
      WithKeyAppend(init, [last], k, key);
    }
  }

  lemma {:induction false} InsertFilter<T(!new)>(x: T, s: seq<T>, p: T -> bool, before: (T, T) -> bool, key: T -> seq<int>)
    requires SortedBy(s, key)
    requires Keyed(before, key, s + [x])
    ensures Filter(Insert(x, s, before), p) == if p(x) then Insert(x, Filter(s, p), before) else Filter(s, p)
  {
    assert x in s + [x];
    if s == [] {
    } else if before(x, s[0]) {
      InsertAhead(x, s, p, before, key);
    } else {
      KeyedSub(before, key, s + [x], s[1..] + [x]);
      InsertFilter(x, s[1..], p, before, key);
      InsertBehind(x, s, p, before);
    }
  }

  /** The case of `InsertFilter` where `x` goes behind `s[0]`, given the
      property for `s[1..]`. */
  lemma InsertBehind<T(!new)>(x: T, s: seq<T>, p: T -> bool, before: (T, T) -> bool)
    requires s != [] && !before(x, s[0])
    requires Filter(Insert(x, s[1..], before), p)
          == if p(x) then Insert(x, Filter(s[1..], p), before) else Filter(s[1..], p)
    ensures Filter(Insert(x, s, before), p) == if p(x) then Insert(x, Filter(s, p), before) else Filter(s, p)
  {
    var rest := Insert(x, s[1..], before);
    var fs := Filter(s[1..], p);
    var whole := Filter(Insert(x, s, before), p);
    assert Insert(x, s, before) == [s[0]] + rest;
    assert whole == (if p(s[0]) then [s[0]] else []) + Filter(rest, p) by {
      assert ([s[0]] + rest)[1..] == rest;
    }
    assert Filter(s, p) == (if p(s[0]) then [s[0]] else []) + fs;
    if p(s[0]) {
      if p(x) {
        assert ([s[0]] + fs)[1..] == fs;
        assert Insert(x, [s[0]] + fs, before) == [s[0]] + Insert(x, fs, before);
        assert whole == Insert(x, Filter(s, p), before);
      } else {
        assert whole == Filter(s, p);
      }
    } else {
      assert Filter(s, p) == fs;
      assert whole == Filter(rest, p);
      if p(x) {
        assert Filter(rest, p) == Insert(x, fs, before);
      } else {
        assert whole == Filter(s, p);
      }
    }
  }

  /** The case of `InsertFilter` where `x` goes in front. */
  lemma InsertAhead<T(!new)>(x: T, s: seq<T>, p: T -> bool, before: (T, T) -> bool, key: T -> seq<int>)
    requires SortedBy(s, key)
    requires Keyed(before, key, s + [x])
    requires s != [] && before(x, s[0])
    ensures Filter(Insert(x, s, before), p) == if p(x) then Insert(x, Filter(s, p), before) else Filter(s, p)
  {
    assert x in s + [x] && s[0] in s + [x];
    var fs := Filter(s, p);
    if p(x) && fs != [] {
      assert fs[0] in s;
      var j :| 0 <= j < |s| && s[j] == fs[0];
      assert s[j] in s + [x];
      if j > 0 {
        LexOrder.LessLeq(key(x), key(s[0]), key(s[j]));
      }
      assert before(x, fs[0]);
    }
    assert Insert(x, s, before) == [x] + s;
    assert ([x] + s)[1..] == s;
  }

  /** Sorting commutes with filtering: sorting the elements that pass a test
      gives the same sequence as sorting everything and then dropping the
      elements that fail it. */
  lemma {:induction false} SortFilter<T(!new)>(s: seq<T>, p: T -> bool, before: (T, T) -> bool, key: T -> seq<int>)
    requires Keyed(before, key, s)
    ensures Sort(Filter(s, p), before) == Filter(Sort(s, before), p)
  {
    if s != [] {
      var init, last := s[..|s| - 1], s[|s| - 1];
      assert s == init + [last];
      KeyedSub(before, key, s, init);
      SortFilter(init, p, before, key);
      SortSorted(init, before, key);
      var sorted := Sort(init, before);
      SortMembers(init, before);
      KeyedSub(before, key, s, sorted + [last]);
      InsertFilter(last, sorted, p, before, key);
      SortFilterStep(init, last, p, before);
    }
  }

  /** The inductive step of `SortFilter`, for an element added at the end. */
  lemma SortFilterStep<T(!new)>(init: seq<T>, last: T, p: T -> bool, before: (T, T) -> bool)
    requires Sort(Filter(init, p), before) == Filter(Sort(init, before), p)
    requires Filter(Insert(last, Sort(init, before), before), p)
          == if p(last) then Insert(last, Filter(Sort(init, before), p), before)
             else Filter(Sort(init, before), p)
    ensures Sort(Filter(init + [last], p), before) == Filter(Sort(init + [last], before), p)
  {
    var sorted := Sort(init, before);
    SortLast(init, last, before);
    FilterAppend(init, [last], p);
    if p(last) {
      assert Filter([last], p) == [last];
      SortLast(Filter(init, p), last, before);
      calc {
        Sort(Filter(init + [last], p), before);
        Sort(Filter(init, p) + [last], before);
        Insert(last, Sort(Filter(init, p), before), before);
        Insert(last, Filter(sorted, p), before);
        Filter(Insert(last, sorted, before), p);
        Filter(Sort(init + [last], before), p);
      }
    } else {
      assert Filter([last], p) == [];
      assert Filter(init, p) + [] == Filter(init, p);
      calc {
        Sort(Filter(init + [last], p), before);
        Sort(Filter(init, p), before);
        Filter(sorted, p);
        Filter(Insert(last, sorted, before), p);
        Filter(Sort(init + [last], before), p);
      }
    }
  }

  lemma SortLast<T>(init: seq<T>, last: T, before: (T, T) -> bool)
    ensures Sort(init + [last], before) == Insert(last, Sort(init, before), before)
  {
    var s := init + [last];
    assert s[..|s| - 1] == init && s[|s| - 1] == last;
  }
}
