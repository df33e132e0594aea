/** The string operations of ECMAScript that the components use: `trim`,
    the `\s` class of regular expressions, case mapping of the ASCII letters,
    `includes`, and the decimal form of an array index. */
module Text {

  /** A character of the ECMAScript WhiteSpace or LineTerminator classes:
      what `trim()` removes and what `\s` matches. */
  predicate IsSpace(c: char) {
    var n := c as int;
    n == 0x09 || n == 0x0A || n == 0x0B || n == 0x0C || n == 0x0D || n == 0x20
    || n == 0xA0 || n == 0x1680 || (0x2000 <= n <= 0x200A) || n == 0x2028 || n == 0x2029
    || n == 0x202F || n == 0x205F || n == 0x3000 || n == 0xFEFF
  }

  /** Drops the leading white space. */
  function TrimStart(s: string): (r: string)
    ensures |r| <= |s| && r == s[|s| - |r|..]
    ensures r == [] || !IsSpace(r[0])
    ensures forall i :: 0 <= i < |s| - |r| ==> IsSpace(s[i])
  {
    if s != [] && IsSpace(s[0]) then TrimStart(s[1..]) else s
  }

  /** Drops the trailing white space. */
  function TrimEnd(s: string): (r: string)
    ensures |r| <= |s| && r == s[..|r|]
    ensures r == [] || !IsSpace(r[|r| - 1])
    ensures forall i :: |r| <= i < |s| ==> IsSpace(s[i])
  {
    if s != [] && IsSpace(s[|s| - 1]) then TrimEnd(s[..|s| - 1]) else s
  }

  /** `s.trim()`. */
  function Trim(s: string): string {
    TrimEnd(TrimStart(s))
  }

  /** `s.trim()` is the piece `s[i..j]` between the leading and the trailing
      white space. */
  lemma TrimSpan(s: string) returns (i: nat, j: nat)
    ensures i <= j <= |s| && Trim(s) == s[i..j]
    ensures forall m :: 0 <= m < i ==> IsSpace(s[m])
    ensures forall m :: j <= m < |s| ==> IsSpace(s[m])
    ensures i < j ==> !IsSpace(s[i]) && !IsSpace(s[j - 1])
  {
    var ts := TrimStart(s);
    i := |s| - |ts|;
    j := i + |TrimEnd(ts)|;
    forall m | j <= m < |s|
      ensures IsSpace(s[m])
    {
      assert s[m] == ts[m - i];
    }
  }

  /** Trimming keeps every character that is not white space. */
  lemma TrimKeeps(s: string, c: char)
    requires c in s && !IsSpace(c)
    ensures c in Trim(s)
  {
    TrimStartKeeps(s, c);
    TrimEndKeeps(TrimStart(s), c);
  }

  lemma {:induction false} TrimStartKeeps(s: string, c: char)
    requires c in s && !IsSpace(c)
    ensures c in TrimStart(s)
  {
    if IsSpace(s[0]) {
      assert s == [s[0]] + s[1..];
      TrimStartKeeps(s[1..], c);
    }
  }

  lemma {:induction false} TrimEndKeeps(s: string, c: char)
    requires c in s && !IsSpace(c)
    ensures c in TrimEnd(s)
  {
    if IsSpace(s[|s| - 1]) {
      assert s == s[..|s| - 1] + [s[|s| - 1]];
      TrimEndKeeps(s[..|s| - 1], c);
    }
  }

  /** Trimming leaves a string without white space unchanged. */
  lemma TrimNoSpace(s: string)
    requires forall c :: c in s ==> !IsSpace(c)
    ensures Trim(s) == s
  {
    if s != [] {
      assert s[0] in s && s[|s| - 1] in s;
    }
  }

  /** `s.replace(/\s+/g, "_")`: every maximal run of white space becomes a
      single underscore. */
  function CollapseSpaces(s: string): (r: string)
    ensures forall c :: c in r ==> !IsSpace(c)
    decreases |s|
  {
    if s == [] then []
    else if IsSpace(s[0]) then
      "_" + CollapseSpaces(TrimStart(s))
    else [s[0]] + CollapseSpaces(s[1..])
  }

  /** A string without white space has no run to replace. */
  lemma {:induction false} CollapseNoSpace(s: string)
    requires forall c :: c in s ==> !IsSpace(c)
    ensures CollapseSpaces(s) == s
  {
    if s != [] {
      assert s[0] in s;
      assert forall c :: c in s[1..] ==> c in s;
      CollapseNoSpace(s[1..]);
    }
  }

  /** Replacing runs of white space keeps every other character. */
  lemma {:induction false} CollapseKeeps(s: string, c: char)
    requires c in s && !IsSpace(c)
    ensures c in CollapseSpaces(s)
    decreases |s|
  {
    if s[0] != c {
      if IsSpace(s[0]) {
        var ts := TrimStart(s);
        var m :| 0 <= m < |s| && s[m] == c;
        assert ts[m - (|s| - |ts|)] == c;
        CollapseKeeps(ts, c);
      } else {
        assert c in s[1..];
        CollapseKeeps(s[1..], c);
      }
    }
  }

  function LowerChar(c: char): char {
    if 'A' <= c <= 'Z' then (c as int + 32) as char else c
  }

  function UpperChar(c: char): char {
    if 'a' <= c <= 'z' then (c as int - 32) as char else c
  }

  /** `s.toLowerCase()` on the ASCII letters. */
  function Lower(s: string): (r: string)
    ensures |r| == |s|
    ensures forall i :: 0 <= i < |s| ==> r[i] == LowerChar(s[i])
  {
    if s == [] then [] else [LowerChar(s[0])] + Lower(s[1..])
  }

  /** Lower-casing works character by character, so it extends at the end. */
  lemma {:induction false} LowerSnoc(s: string)
    requires s != []
    ensures Lower(s) == Lower(s[..|s| - 1]) + [LowerChar(s[|s| - 1])]
  {
    var init := s[..|s| - 1];
    var a, b := Lower(s), Lower(init);
    var r := b + [LowerChar(s[|s| - 1])];
    assert |a| == |r|;
    forall i | 0 <= i < |s|
      ensures a[i] == r[i]
    {
      if i < |init| {
        assert r[i] == b[i] == LowerChar(init[i]);
        assert init[i] == s[i];
      }
    }
  }

  lemma LowerKeeps(s: string, c: char)
    requires c in s
    ensures LowerChar(c) in Lower(s)
  {
    var m :| 0 <= m < |s| && s[m] == c;
    assert Lower(s)[m] == LowerChar(c);
  }

  /** `hay.includes(needle)`: `needle` occurs in `hay` as a contiguous piece. */
  predicate Includes(hay: string, needle: string)
    decreases |hay|
  {
    (|needle| <= |hay| && hay[..|needle|] == needle) || (hay != [] && Includes(hay[1..], needle))
  }

  lemma {:induction false} IncludesAt(hay: string, needle: string, i: nat)
    requires i + |needle| <= |hay| && hay[i..i + |needle|] == needle
    ensures Includes(hay, needle)
  {
    if i > 0 {
      assert hay[1..][i - 1..i - 1 + |needle|] == hay[i..i + |needle|];
      IncludesAt(hay[1..], needle, i - 1);
    }
  }

  lemma {:induction false} IncludesWhere(hay: string, needle: string) returns (i: nat)
    requires Includes(hay, needle)
    ensures i + |needle| <= |hay| && hay[i..i + |needle|] == needle
  {
    if |needle| <= |hay| && hay[..|needle|] == needle {
      i := 0;
    } else {
      var j := IncludesWhere(hay[1..], needle);
      assert hay[1..][j..j + |needle|] == hay[j + 1..j + 1 + |needle|];
      i := j + 1;
    }
  }

  /** Every character of a piece of `hay` occurs in `hay`. */
  lemma IncludesChars(hay: string, needle: string)
    ensures Includes(hay, needle) ==> forall c :: c in needle ==> c in hay
  {
    if Includes(hay, needle) {
      var at := IncludesWhere(hay, needle);
      forall c | c in needle
        ensures c in hay
      {
        var m :| 0 <= m < |needle| && needle[m] == c;
        assert hay[at + m] == c;
      }
    }
  }

  /** A piece of a piece of `hay` is a piece of `hay`. */
  lemma IncludesTransitive(hay: string, mid: string, needle: string)
    requires Includes(hay, mid) && Includes(mid, needle)
    ensures Includes(hay, needle)
  {
    var i := IncludesWhere(hay, mid);
    var j := IncludesWhere(mid, needle);
    forall k | 0 <= k < |needle|
      ensures hay[i + j + k] == needle[k]
    {
      assert hay[i + j + k] == hay[i..i + |mid|][j + k];
      assert needle[k] == mid[j..j + |needle|][k];
    }
    assert hay[i + j..i + j + |needle|] == needle;
    IncludesAt(hay, needle, i + j);
  }

  /** A character occurs in `hay` exactly when `hay` includes it as a string. */
  lemma IncludesChar(hay: string, c: char)
    ensures Includes(hay, [c]) <==> c in hay
  {
    if c in hay {
      var i :| 0 <= i < |hay| && hay[i] == c;
      assert hay[i..i + 1] == [c];
      IncludesAt(hay, [c], i);
    }
    if Includes(hay, [c]) {
      var i := IncludesWhere(hay, [c]);
      assert hay[i] == c;
    }
  }

  /** `String(n)` for an array index. */
  function Decimal(n: nat): (r: string)
    ensures r != []
    ensures forall c :: c in r ==> '0' <= c <= '9'
  {
    var digit := ['0' + (n % 10) as char];
    if n < 10 then digit else Decimal(n / 10) + digit
  }
}
