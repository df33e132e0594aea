/** How the sensor grid cleans a telemetry key for matching and how it turns
    a key into a card label (`normalizeKey` and `titleizeKey` in
    src/components/SensorsGrid.tsx). */
module SensorKeys {
  import opened Text

  /** The characters `[a-z0-9_]` that a normalized key may contain. */
  predicate IsKeyChar(c: char) {
    ('a' <= c <= 'z') || ('0' <= c <= '9') || c == '_'
  }

  /** `normalizeKey`: trim, lower-case, turn each run of white space into
      `_`, then drop every character outside `[a-z0-9_]`. `String(k || "")`
      is `k` itself for a string. */
  function NormalizeKey(k: string): (r: string)
    ensures forall c :: c in r ==> IsKeyChar(c)
    ensures |r| <= |k|
  {
    var lowered := Lower(Trim(k));
    LengthCollapse(lowered);
    StripNonKey(CollapseSpaces(lowered))
  }

  /** `s.replace(/[^a-z0-9_]/g, "")`. */
  function StripNonKey(s: string): (r: string)
    ensures |r| <= |s|
    ensures forall c :: c in r ==> IsKeyChar(c)
  {
    if s == [] then []
    else (if IsKeyChar(s[0]) then [s[0]] else []) + StripNonKey(s[1..])
  }

  /** Nothing is removed from a string of `[a-z0-9_]` characters. */
  lemma {:induction false} StripClean(s: string)
    requires forall c :: c in s ==> IsKeyChar(c)
    ensures StripNonKey(s) == s
  {
    if s != [] {
      assert s[0] in s;
      assert forall c :: c in s[1..] ==> c in s;
      StripClean(s[1..]);
    }
  }

  /** Every `[a-z0-9_]` character survives. */
  lemma {:induction false} StripKeeps(s: string, c: char)
    requires c in s && IsKeyChar(c)
    ensures c in StripNonKey(s)
  {
    if s[0] != c {
      assert c in s[1..];
      StripKeeps(s[1..], c);
    }
  }

  /** Replacing runs of white space never lengthens a string. */
  lemma {:induction false} LengthCollapse(s: string)
    ensures |CollapseSpaces(s)| <= |s|
    decreases |s|
  {
    if s != [] {
      if IsSpace(s[0]) {
        LengthCollapse(TrimStart(s));
      } else {
        LengthCollapse(s[1..]);
      }
    }
  }

  /** Lower-casing leaves a string without capital letters unchanged. */
  lemma LowerNoCapital(s: string)
    requires forall c :: c in s ==> !('A' <= c <= 'Z')
    ensures Lower(s) == s
  {
    forall i | 0 <= i < |s|
      ensures Lower(s)[i] == s[i]
    {
      assert s[i] in s;
    }
  }

  /** A key made of `[a-z0-9_]` only is its own normal form. */
  lemma NormalizeClean(k: string)
    requires forall c :: c in k ==> IsKeyChar(c)
    ensures NormalizeKey(k) == k
  {
    TrimNoSpace(k);
    LowerNoCapital(k);
    CollapseNoSpace(k);
    StripClean(k);
  }

  /** A key made of ASCII letters, digits and `_` normalizes to its lower-case
      form. */
  lemma NormalizePlain(k: string)
    requires forall c :: c in k ==> IsKeyChar(LowerChar(c))
    ensures NormalizeKey(k) == Lower(k)
  {
    TrimNoSpace(k);
    assert forall c :: c in Lower(k) ==> IsKeyChar(c) by {
      forall c | c in Lower(k)
        ensures IsKeyChar(c)
      {
        var i :| 0 <= i < |k| && Lower(k)[i] == c;
        assert k[i] in k;
      }
    }
    CollapseNoSpace(Lower(k));
    StripClean(Lower(k));
  }

  /** A letter, digit or `_` of the key survives normalization, lower-cased. */
  lemma NormalKeeps(k: string, c: char)
    requires c in k && IsKeyChar(LowerChar(c))
    ensures LowerChar(c) in NormalizeKey(k)
  {
    TrimKeeps(k, c);
    LowerKeeps(Trim(k), c);
    CollapseKeeps(Lower(Trim(k)), LowerChar(c));
    StripKeeps(CollapseSpaces(Lower(Trim(k))), LowerChar(c));
  }

  /** Normalizing twice is normalizing once; the empty key normalizes to
      the empty key. */
  lemma NormalizeIdempotent(k: string)
    ensures NormalizeKey(NormalizeKey(k)) == NormalizeKey(k)
    ensures k == "" ==> NormalizeKey(k) == ""
  {
    NormalizeClean(NormalizeKey(k));
  }

  /** `_` and white space: what `titleizeKey` treats as blank. */
  predicate Blank(c: char) {
    c == '_' || IsSpace(c)
  }

  /** `k.replace(/_/g, " ")`. */
  function Spaced(k: string): (r: string)
    ensures |r| == |k| && '_' !in r
  {
    seq(|k|, i requires 0 <= i < |k| => if k[i] == '_' then ' ' else k[i])
  }

  /** `titleizeKey`: underscores become spaces, the result is trimmed, and
      its first character is upper-cased; a blank key is shown as "-". */
  function TitleizeKey(k: string): string {
    var s := Trim(Spaced(k));
    if s == "" then "-" else [UpperChar(s[0])] + s[1..]
  }

  /** A character of `Spaced(k)` is white space exactly where `k` is blank,
      and is the character of `k` wherever `k` is not blank. */
  lemma SpacedBlank(k: string)
    ensures forall m :: 0 <= m < |k| ==> (Blank(k[m]) <==> IsSpace(Spaced(k)[m]))
    ensures forall m :: 0 <= m < |k| && !Blank(k[m]) ==> Spaced(k)[m] == k[m]
  {
  }

  /** `titleizeKey` gives "-" for a key of blanks only; otherwise it keeps the
      piece `k[i..j]` from the first to the last non-blank character, with
      underscores as spaces and the first character upper-cased. It never
      shows `_`. */
  lemma TitleizeKeySpec(k: string) returns (i: nat, j: nat)
    ensures (forall c :: c in k ==> Blank(c)) ==> TitleizeKey(k) == "-"
    ensures !(forall c :: c in k ==> Blank(c)) ==>
      && i < j <= |k|
      && (forall m :: 0 <= m < i ==> Blank(k[m]))
      && (forall m :: j <= m < |k| ==> Blank(k[m]))
      && !Blank(k[i]) && !Blank(k[j - 1])
      && TitleizeKey(k) == [UpperChar(k[i])] + Spaced(k[i + 1..j])
    ensures '_' !in TitleizeKey(k)
  {
    i, j := TrimSpan(Spaced(k));
    if forall c :: c in k ==> Blank(c) {
      TitleizeBlank(k, i, j);
    } else {
      TitleizeSpan(k, i, j);
    }
    TitleizeNoUnderscore(k, i, j);
  }

  lemma TitleizeBlank(k: string, i: nat, j: nat)
    requires i <= j <= |k| && Trim(Spaced(k)) == Spaced(k)[i..j]
    requires i < j ==> !IsSpace(Spaced(k)[i])
    requires forall c :: c in k ==> Blank(c)
    ensures TitleizeKey(k) == "-"
  {
    SpacedBlank(k);
    forall m | 0 <= m < |k|
      ensures IsSpace(Spaced(k)[m])
    {
      assert k[m] in k;
    }
  }

  lemma TitleizeSpan(k: string, i: nat, j: nat)
    requires i <= j <= |k| && Trim(Spaced(k)) == Spaced(k)[i..j]
    requires forall m :: 0 <= m < i ==> IsSpace(Spaced(k)[m])
    requires forall m :: j <= m < |k| ==> IsSpace(Spaced(k)[m])
    requires i < j ==> !IsSpace(Spaced(k)[i]) && !IsSpace(Spaced(k)[j - 1])
    requires !(forall c :: c in k ==> Blank(c))
    ensures i < j
    ensures forall m :: 0 <= m < i ==> Blank(k[m])
    ensures forall m :: j <= m < |k| ==> Blank(k[m])
    ensures !Blank(k[i]) && !Blank(k[j - 1])
    ensures TitleizeKey(k) == [UpperChar(k[i])] + Spaced(k[i + 1..j])
  {
    SpacedBlank(k);
    var c :| c in k && !Blank(c);
    var m :| 0 <= m < |k| && k[m] == c;
    assert i <= m < j;
    SpacedSlice(k, i + 1, j);
  }

  lemma TitleizeNoUnderscore(k: string, i: nat, j: nat)
    requires i <= j <= |k| && Trim(Spaced(k)) == Spaced(k)[i..j]
    ensures '_' !in TitleizeKey(k)
  {
    var sp := Spaced(k);
    var s := sp[i..j];
    assert '_' !in sp;
    assert forall c :: c in s ==> c in sp;
    if s != "" {
      assert s[0] in sp && forall c :: c in s[1..] ==> c in s;
    }
  }

  lemma SpacedSlice(k: string, a: nat, b: nat)
    requires a <= b <= |k|
    ensures Spaced(k)[a..b] == Spaced(k[a..b])
  {
  }
}
