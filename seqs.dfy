/** Sequence operations shared by both components: JavaScript's
    `Array.prototype.filter`, and the insertion-ordered de-duplication that
    adding keys to a `Set` and reading them back with `Array.from` performs. */
module Seqs {

  predicate Distinct<T(==)>(s: seq<T>) {
    forall i, j :: 0 <= i < j < |s| ==> s[i] != s[j]
  }

  /** `s.filter(p)`: the elements that satisfy `p`, in their original order. */
  function Filter<T(!new)>(s: seq<T>, p: T -> bool): (r: seq<T>)
    ensures |r| <= |s|
    ensures forall x :: x in r <==> x in s && p(x)
  {
    if s == [] then []
    else
      assert s == [s[0]] + s[1..];
      (if p(s[0]) then [s[0]] else []) + Filter(s[1..], p)
  }

  lemma {:induction false} FilterAppend<T(!new)>(a: seq<T>, b: seq<T>, p: T -> bool)
    ensures Filter(a + b, p) == Filter(a, p) + Filter(b, p)
  {
    if a == [] {
      assert a + b == b;
    } else {
      assert (a + b)[1..] == a[1..] + b;
      FilterAppend(a[1..], b, p);
    }
  }

  /** Filtering keeps everything when every element passes. */
  lemma {:induction false} FilterAll<T(!new)>(s: seq<T>, p: T -> bool)
    requires forall x :: x in s ==> p(x)
    ensures Filter(s, p) == s
  {
    if s != [] {
      FilterAll(s[1..], p);
    }
  }

  /** Two filters in a row are one filter by the conjunction of their tests. */
  lemma {:induction false} FilterFilter<T(!new)>(s: seq<T>, p: T -> bool, q: T -> bool, pq: T -> bool)
    requires forall x :: pq(x) == (p(x) && q(x))
    ensures Filter(Filter(s, p), q) == Filter(s, pq)
  {
    if s != [] {
      FilterFilter(s[1..], p, q, pq);
      var rest := Filter(s[1..], p);
      if p(s[0]) {
        calc {
          Filter(Filter(s, p), q);
          Filter([s[0]] + rest, q);
          { assert ([s[0]] + rest)[1..] == rest; }
          (if q(s[0]) then [s[0]] else []) + Filter(rest, q);
        }
      } else {
        assert Filter(s, p) == rest;
      }
    }
  }

  /** A filter by a weaker test first loses nothing that the stronger test keeps. */
  lemma {:induction false} FilterNarrower<T(!new)>(s: seq<T>, wide: T -> bool, narrow: T -> bool)
    requires forall x :: narrow(x) ==> wide(x)
    ensures Filter(Filter(s, wide), narrow) == Filter(s, narrow)
  {
    if s != [] {
      FilterNarrower(s[1..], wide, narrow);
      var rest := Filter(s[1..], wide);
      if wide(s[0]) {
        calc {
          Filter(Filter(s, wide), narrow);
          Filter([s[0]] + rest, narrow);
          { assert ([s[0]] + rest)[1..] == rest; }
          (if narrow(s[0]) then [s[0]] else []) + Filter(rest, narrow);
        }
      } else {
        assert Filter(s, wide) == rest;
      }
    }
  }

  /** The elements of `s` in order of first occurrence, each once: what a `Set`
      filled from `s` yields when it is read back. */
  function Dedup<T(==,!new)>(s: seq<T>): (r: seq<T>)
    ensures Distinct(r)
    ensures forall x :: x in r <==> x in s
  {
    if s == [] then []
    else
      var d := Dedup(s[..|s| - 1]);
      assert forall x :: x in s <==> x in s[..|s| - 1] || x == s[|s| - 1] by {
        assert s == s[..|s| - 1] + [s[|s| - 1]];
      }
      if s[|s| - 1] in d then d else d + [s[|s| - 1]]
  }

  /** Adding one more element to a `Set` appends it unless it is already there. */
  lemma DedupSnoc<T(!new)>(s: seq<T>, x: T)
    ensures Dedup(s + [x]) == if x in Dedup(s) then Dedup(s) else Dedup(s) + [x]
  {
    assert (s + [x])[..|s|] == s;
  }

  /** The first `n` elements of `Dedup(s)` come from the earliest part of `s`:
      an element that occurs before every occurrence of another is listed first. */
  lemma {:induction false} DedupFirstSeen<T(!new)>(s: seq<T>, i: nat, j: nat)
    requires i < j < |Dedup(s)|
    ensures exists k :: 0 <= k < |s| && s[k] == Dedup(s)[i] && Dedup(s)[j] !in s[..k + 1]
  {
    var init := s[..|s| - 1];
    var d := Dedup(init);
    assert s == init + [s[|s| - 1]];
    if s[|s| - 1] in d {
      assert Dedup(s) == d;
      DedupFirstSeen(init, i, j);
      var k :| 0 <= k < |init| && init[k] == d[i] && d[j] !in init[..k + 1];
      assert s[..k + 1] == init[..k + 1];
    } else if j < |d| {
      DedupFirstSeen(init, i, j);
      var k :| 0 <= k < |init| && init[k] == d[i] && d[j] !in init[..k + 1];
      assert s[..k + 1] == init[..k + 1];
    } else {
      assert Dedup(s)[j] == s[|s| - 1];
      assert d[i] in init;
      var k :| 0 <= k < |init| && init[k] == d[i];
      assert s[..k + 1] == init[..k + 1];
      assert s[|s| - 1] !in init;
    }
  }
}
