/** Lexicographic order on sequences of integers. Both sorts of the model
    compare keys of this form: a one-element sequence holding a time in
    milliseconds, or the collation ranks of a normalised key's characters. */
module LexOrder {

  /** `a` sorts strictly before `b`; a proper prefix sorts first. */
  predicate Less(a: seq<int>, b: seq<int>) {
    if a == [] then b != []
    else if b == [] then false
    else a[0] < b[0] || (a[0] == b[0] && Less(a[1..], b[1..]))
  }

  lemma {:induction false} Irreflexive(a: seq<int>)
    ensures !Less(a, a)
  {
    if a != [] {
      Irreflexive(a[1..]);
    }
  }

  lemma {:induction false} Transitive(a: seq<int>, b: seq<int>, c: seq<int>)
    requires Less(a, b) && Less(b, c)
    ensures Less(a, c)
  {
    if a != [] && b != [] && c != [] && a[0] == b[0] == c[0] {
      Transitive(a[1..], b[1..], c[1..]);
    }
  }

  lemma {:induction false} Total(a: seq<int>, b: seq<int>)
    ensures Less(a, b) || a == b || Less(b, a)
  {
    if a != [] && b != [] && a[0] == b[0] {
      Total(a[1..], b[1..]);
      if a[1..] == b[1..] {
        assert a == [a[0]] + a[1..] && b == [b[0]] + b[1..];
      }
    }
  }

  lemma Asymmetric(a: seq<int>, b: seq<int>)
    requires Less(a, b)
    ensures !Less(b, a)
  {
    if Less(b, a) {
      Transitive(a, b, a);
      Irreflexive(a);
    }
  }

  /** "At most" composes with "strictly before". */
  lemma LessLeq(a: seq<int>, b: seq<int>, c: seq<int>)
    requires Less(a, b) && !Less(c, b)
    ensures Less(a, c)
  {
    Total(b, c);
    if Less(b, c) {
      Transitive(a, b, c);
    }
  }

  lemma LeqLeq(a: seq<int>, b: seq<int>, c: seq<int>)
    requires !Less(b, a) && !Less(c, b)
    ensures !Less(c, a)
  {
    Total(a, b);
    Total(b, c);
    if Less(a, b) && Less(b, c) {
      Transitive(a, b, c);
      Asymmetric(a, c);
    } else if Less(a, b) {
      Asymmetric(a, c);
    } else if Less(b, c) {
      Asymmetric(a, c);
    } else {
      Irreflexive(a);
    }
  }
}
