/** The creation time that the telemetry graph reads out of a record's
    24-character database id (`extractTimestampFromId` in
    src/components/TelemetryGraph.tsx): the first eight characters are the
    creation time in seconds, written in base 16. */
module ObjectId {
  import opened Wrappers
  import opened Text

  /** The length of an id the graph is willing to decode. */
  const ID_LENGTH := 24
  /** How many leading characters hold the seconds. */
  const SECONDS_DIGITS := 8

  predicate IsHexDigit(c: char) {
    ('0' <= c <= '9') || ('a' <= c <= 'f') || ('A' <= c <= 'F')
  }

  predicate AllHex(s: string) {
    forall c :: c in s ==> IsHexDigit(c)
  }

  function HexDigitValue(c: char): (d: nat)
    requires IsHexDigit(c)
    ensures d < 16
  {
    if '0' <= c <= '9' then (c - '0') as nat
    else if 'a' <= c <= 'f' then (c - 'a') as nat + 10
    else (c - 'A') as nat + 10
  }

  /** The lower-case digit that `toString(16)` writes for `d`. */
  function HexDigitChar(d: nat): (c: char)
    requires d < 16
    ensures IsHexDigit(c) && HexDigitValue(c) == d && !('A' <= c <= 'Z')
  {
    if d < 10 then ('0' as int + d) as char else ('a' as int + d - 10) as char
  }

  function Pow16(n: nat): (p: nat)
    ensures p >= 1
  {
    if n == 0 then 1 else 16 * Pow16(n - 1)
  }

  /** `parseInt(s, 16)` on a string made of hex digits only: the digits read
      most significant first, in either case. */
  function ParseHex(s: string): (v: nat)
    requires AllHex(s)
    ensures v < Pow16(|s|)
  {
    if s == [] then 0
    else
      assert s[|s| - 1] in s;
      assert forall c :: c in s[..|s| - 1] ==> c in s;
      ParseHex(s[..|s| - 1]) * 16 + HexDigitValue(s[|s| - 1])
  }

  /** `v` written with exactly `width` lower-case hex digits, leading zeros
      included. */
  function EncodeHex(v: nat, width: nat): (r: string)
    requires v < Pow16(width)
    ensures |r| == width && AllHex(r)
  {
    if width == 0 then ""
    else EncodeHex(v / 16, width - 1) + [HexDigitChar(v % 16)]
  }

  /** `extractTimestampFromId`: no time (`null`) unless the id has 24
      characters; otherwise the first eight, read in base 16, as seconds, and
      the result in milliseconds. The caller guarantees that those eight are
      hex digits. `parseInt` would also read a partial prefix (after white
      space, a sign or `0x`, up to the first non-hex character), and gives
      NaN only when the first significant character is not a hex digit;
      neither reading is modelled. */
  function ExtractTimestampFromId(id: string): (r: Option<int>)
    requires |id| == ID_LENGTH ==> AllHex(id[..SECONDS_DIGITS])
    ensures r.Some? <==> |id| == ID_LENGTH
    ensures r.Some? ==> 0 <= r.value < Pow16(SECONDS_DIGITS) * 1000 && r.value % 1000 == 0
  {
    if |id| != ID_LENGTH then None
    else Some(ParseHex(id[..SECONDS_DIGITS]) * 1000)
  }

  /** Reading back what `EncodeHex` wrote gives the number. */
  lemma {:induction false} ParseEncode(v: nat, width: nat)
    requires v < Pow16(width)
    ensures ParseHex(EncodeHex(v, width)) == v
  {
    if width > 0 {
      var s := EncodeHex(v, width);
      ParseEncode(v / 16, width - 1);
      assert s[..|s| - 1] == EncodeHex(v / 16, width - 1);
    }
  }

  /** Writing out what `ParseHex` read gives the digits back, lower-cased. */
  lemma {:induction false} EncodeParse(s: string)
    requires AllHex(s)
    ensures EncodeHex(ParseHex(s), |s|) == Lower(s)
  {
    if s != [] {
      var init, last := s[..|s| - 1], s[|s| - 1];
      HexSplit(s);
      EncodeParse(init);
      var high, d := ParseHex(init), HexDigitValue(last);
      var v := ParseHex(s);
      DigitSplit(high, d);
      assert v / 16 == high && v % 16 == d;
      DigitRoundTrip(last);
      EncodeStep(v, |s|);
      LowerSnoc(s);
      calc {
        EncodeHex(v, |s|);
        EncodeHex(high, |init|) + [HexDigitChar(d)];
        Lower(init) + [LowerChar(last)];
        Lower(s);
      }
    }
  }

  lemma HexSplit(s: string)
    requires AllHex(s) && s != []
    ensures AllHex(s[..|s| - 1]) && IsHexDigit(s[|s| - 1])
    ensures ParseHex(s) == ParseHex(s[..|s| - 1]) * 16 + HexDigitValue(s[|s| - 1])
  {
    assert s[|s| - 1] in s;
    assert forall c :: c in s[..|s| - 1] ==> c in s;
  }

  lemma EncodeStep(v: nat, width: nat)
    requires 0 < width && v < Pow16(width)
    ensures v / 16 < Pow16(width - 1)
    ensures EncodeHex(v, width) == EncodeHex(v / 16, width - 1) + [HexDigitChar(v % 16)]
  {
  }

  lemma DigitSplit(high: nat, d: nat)
    requires d < 16
    ensures (high * 16 + d) / 16 == high && (high * 16 + d) % 16 == d
  {
  }

  lemma DigitRoundTrip(c: char)
    requires IsHexDigit(c)
    ensures HexDigitChar(HexDigitValue(c)) == LowerChar(c)
  {
  }

  /** Any time below 2^32 seconds, written as eight hex digits and followed
      by any sixteen characters, decodes back to that time in milliseconds. */
  lemma ExtractRoundTrip(seconds: nat, rest: string)
    requires seconds < 0x1_0000_0000 && |rest| == 16
    ensures |EncodeHex(seconds, 8) + rest| == ID_LENGTH
    ensures ExtractTimestampFromId(EncodeHex(seconds, 8) + rest) == Some(seconds * 1000)
  {
    var id := EncodeHex(seconds, 8) + rest;
    assert id[..SECONDS_DIGITS] == EncodeHex(seconds, 8);
    ParseEncode(seconds, 8);
  }

  /** A decoded time gives back the id's first eight characters, lower-cased:
      the decoder loses nothing but letter case. */
  lemma ExtractInverse(id: string)
    requires |id| == ID_LENGTH && AllHex(id[..SECONDS_DIGITS])
    ensures ExtractTimestampFromId(id).value / 1000 < Pow16(SECONDS_DIGITS)
    ensures EncodeHex(ExtractTimestampFromId(id).value / 1000, SECONDS_DIGITS) == Lower(id[..SECONDS_DIGITS])
  {
    EncodeParse(id[..SECONDS_DIGITS]);
  }

  /** Only the first eight characters matter: two 24-character ids that agree
      on them, up to letter case, carry the same time. */
  lemma ExtractPrefixOnly(a: string, b: string)
    requires |a| == |b| == ID_LENGTH
    requires AllHex(a[..SECONDS_DIGITS]) && AllHex(b[..SECONDS_DIGITS])
    requires Lower(a[..SECONDS_DIGITS]) == Lower(b[..SECONDS_DIGITS])
    ensures ExtractTimestampFromId(a) == ExtractTimestampFromId(b)
  {
    EncodeParse(a[..SECONDS_DIGITS]);
    EncodeParse(b[..SECONDS_DIGITS]);
    ParseEncode(ParseHex(a[..SECONDS_DIGITS]), SECONDS_DIGITS);
    ParseEncode(ParseHex(b[..SECONDS_DIGITS]), SECONDS_DIGITS);
  }
}
