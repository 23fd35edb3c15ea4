/** String helpers with the meaning of the JavaScript built-ins that the client
    relies on: `trim`, `includes`, `startsWith`, `split(sep)[0]`, the `\s` and `\d`
    character classes, ASCII case folding for `/.../i`, and the decimal rendering
    of integers in template literals. */
module Text {

  /** JavaScript's WhiteSpace and LineTerminator characters: exactly what
      `String.prototype.trim` strips and what the regular-expression class `\s`
      matches. */
  predicate IsSpace(c: char) {
    || c == '\t' || c == '\n' || c == '\U{000B}' || c == '\U{000C}' || c == '\r'
    || c == ' ' || c == '\U{00A0}' || c == '\U{1680}'
    || ('\U{2000}' <= c <= '\U{200A}')
    || c == '\U{2028}' || c == '\U{2029}' || c == '\U{202F}' || c == '\U{205F}'
    || c == '\U{3000}' || c == '\U{FEFF}'
  }

  /** The regular-expression class `\d` (ASCII digits only). */
  predicate IsDigit(c: char) {
    '0' <= c <= '9'
  }

  predicate AllSpace(s: string) {
    forall i :: 0 <= i < |s| ==> IsSpace(s[i])
  }

  predicate AllDigits(s: string) {
    forall i :: 0 <= i < |s| ==> IsDigit(s[i])
  }

  /** Number of whitespace characters at the front of `s`. */
  function LeadingSpaces(s: string): (n: nat)
    ensures n <= |s| && AllSpace(s[..n])
    ensures n < |s| ==> !IsSpace(s[n])
  {
    if s == [] || !IsSpace(s[0]) then 0
    else
      var k := LeadingSpaces(s[1..]);
      assert s[..k + 1] == [s[0]] + s[1..][..k];
      k + 1
  }

  /** Number of whitespace characters at the back of `s`. */
  function TrailingSpaces(s: string): (n: nat)
    ensures n <= |s| && AllSpace(s[|s| - n..])
    ensures n < |s| ==> !IsSpace(s[|s| - n - 1])
  {
    if s == [] || !IsSpace(s[|s| - 1]) then 0
    else
      var init := s[..|s| - 1];
      var k := TrailingSpaces(init);
      assert init[|init| - k..] == s[|s| - 1 - k..|s| - 1];
      assert k < |init| ==> init[|init| - k - 1] == s[|s| - (k + 1) - 1];
      AllSpaceSnoc(s[|s| - 1 - k..|s| - 1], s[|s| - 1]);
      assert s[|s| - (k + 1)..] == s[|s| - 1 - k..|s| - 1] + [s[|s| - 1]];
      k + 1
  }

  lemma AllSpaceSnoc(a: string, c: char)
    requires AllSpace(a) && IsSpace(c)
    ensures AllSpace(a + [c])
  {
    assert forall i | 0 <= i < |a| :: (a + [c])[i] == a[i];
  }

  /** `String.prototype.trim`: the text between the leading and the trailing
      whitespace runs. The result neither starts nor ends with whitespace, and
      what was cut off on either side is whitespace only. */
  function Trim(s: string): (r: string)
    ensures LeadingSpaces(s) + |r| <= |s|
    ensures r == s[LeadingSpaces(s)..LeadingSpaces(s) + |r|]
    ensures AllSpace(s[..LeadingSpaces(s)]) && AllSpace(s[LeadingSpaces(s) + |r|..])
    ensures r != [] ==> !IsSpace(r[0]) && !IsSpace(r[|r| - 1])
  {
    var lead := LeadingSpaces(s);
    if lead == |s| then []
    else
      var trail := TrailingSpaces(s);
      s[lead..|s| - trail]
  }

  /** Trimming twice is trimming once. */
  lemma {:induction false} TrimIdempotent(s: string)
    ensures Trim(Trim(s)) == Trim(s)
  {
    var t := Trim(s);
    if t != [] {
      assert LeadingSpaces(t) == 0;
      assert TrailingSpaces(t) == 0;
      assert t[0..|t| - 0] == t;
    }
  }

  /** `w` occurs in `s` starting at index `i`. */
  predicate OccursAt(s: string, w: string, i: int) {
    0 <= i && i + |w| <= |s| && s[i..i + |w|] == w
  }

  /** `s.includes(w)`. */
  predicate Contains(s: string, w: string) {
    exists i | 0 <= i <= |s| - |w| :: OccursAt(s, w, i)
  }

  /** `s.startsWith(p)`. */
  predicate StartsWith(s: string, p: string) {
    |p| <= |s| && s[..|p|] == p
  }

  /** The case canonicalisation a non-unicode `/.../i` regular expression applies
      when it compares an ASCII letter. A non-ASCII character is never
      canonicalised to an ASCII one, so folding ASCII letters only is exact for
      patterns written in lower-case ASCII. */
  function FoldChar(c: char): (r: char)
    ensures r == c || ('A' <= c <= 'Z' && r as int == c as int + 32)
    ensures !('A' <= r <= 'Z')
  {
    if 'A' <= c <= 'Z' then (c as int + 32) as char else c
  }

  function Fold(s: string): (r: string)
    ensures |r| == |s|
    ensures forall i :: 0 <= i < |r| ==> r[i] == FoldChar(s[i])
  {
    seq(|s|, i requires 0 <= i < |s| => FoldChar(s[i]))
  }

  /** `w` occurs in `s` at index `i` when letter case is ignored. */
  predicate OccursFoldedAt(s: string, w: string, i: int) {
    0 <= i && i + |w| <= |s| && Fold(s[i..i + |w|]) == w
  }

  /** `/w/i.test(s)` for a lower-case ASCII word `w`. */
  predicate ContainsIgnoringCase(s: string, w: string) {
    exists i | 0 <= i <= |s| - |w| :: OccursFoldedAt(s, w, i)
  }

  /** A lower-case word is found in a text exactly when it is found in the text's
      upper-case or mixed-case variants: folding the text first changes nothing. */
  lemma FoldedSearch(s: string, w: string)
    requires Fold(w) == w
    ensures ContainsIgnoringCase(Fold(s), w) <==> ContainsIgnoringCase(s, w)
  {
    forall i | 0 <= i <= |s| - |w|
      ensures OccursFoldedAt(Fold(s), w, i) <==> OccursFoldedAt(s, w, i)
    {
      assert Fold(s)[i..i + |w|] == Fold(s[i..i + |w|]);
      assert Fold(Fold(s[i..i + |w|])) == Fold(s[i..i + |w|]);
    }
  }

  /** `s.split(sep)[0]`: the text before the first `sep`, or all of `s` when it
      has none. */
  function BeforeFirst(s: string, sep: char): (r: string)
    ensures StartsWith(s, r)
    ensures sep !in r
    ensures |r| == |s| || s[|r|] == sep
  {
    if s == [] || s[0] == sep then []
    else [s[0]] + BeforeFirst(s[1..], sep)
  }

  /** Splitting at the first `sep` of a text that has none gives the text back,
      whatever follows the separator. */
  lemma {:induction false} BeforeFirstOfJoin(s: string, sep: char, rest: string)
    requires sep !in s
    ensures BeforeFirst(s + [sep] + rest, sep) == s
    ensures BeforeFirst(s, sep) == s
  {
    if s != [] {
      assert (s + [sep] + rest)[1..] == s[1..] + [sep] + rest;
      BeforeFirstOfJoin(s[1..], sep, rest);
    }
  }

  /** The character of a decimal digit. */
  function DigitChar(d: nat): (c: char)
    requires d < 10
    ensures IsDigit(c) && c as int - '0' as int == d
  {
    ('0' as int + d) as char
  }

  /** The decimal rendering of a natural number, as `String(n)` gives it. */
  function NatToString(n: nat): (r: string)
    ensures |r| >= 1 && AllDigits(r)
    ensures |r| > 1 ==> r[0] != '0'
  {
    if n < 10 then [DigitChar(n)]
    else NatToString(n / 10) + [DigitChar(n % 10)]
  }

  /** The decimal rendering of an integer, with a leading `-` when negative:
      the digits after the sign read back as the magnitude. */
  function IntToString(i: int): (r: string)
    ensures |r| >= 1
    ensures i >= 0 <==> r[0] != '-'
    ensures i >= 0 ==> ParseNat(r) == Some(i)
    ensures i < 0 ==> ParseNat(r[1..]) == Some(-i)
  {
    if i < 0 then
      NatToStringRoundTrip(-i);
      assert ("-" + NatToString(-i))[1..] == NatToString(-i);
      "-" + NatToString(-i)
    else
      NatToStringRoundTrip(i);
      NatToString(i)
  }

  /** The value of a string of decimal digits. */
  function DigitsValue(s: string): nat
    requires AllDigits(s)
  {
    if s == [] then 0
    else DigitsValue(s[..|s| - 1]) * 10 + (s[|s| - 1] as int - '0' as int)
  }

  /** Reads back a natural number written in decimal. */
  function ParseNat(s: string): (r: Option<nat>)
    ensures r.Some? <==> s != [] && AllDigits(s)
  {
    if s != [] && AllDigits(s) then Some(DigitsValue(s)) else None
  }

  datatype Option<+T> = None | Some(value: T)

  /** Reading back what NatToString wrote gives the number back. */
  lemma {:induction false} NatToStringRoundTrip(n: nat)
    ensures ParseNat(NatToString(n)) == Some(n)
  {
    var r := NatToString(n);
    if n >= 10 {
      NatToStringRoundTrip(n / 10);
      assert r[..|r| - 1] == NatToString(n / 10);
      assert r[|r| - 1] == DigitChar(n % 10);
      assert DigitsValue(r) == (n / 10) * 10 + n % 10;
    }
  }
}
