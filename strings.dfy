/**
 * The JavaScript string operations the application relies on, over `seq<char>`:
 * `trim`, `toLowerCase` (ASCII letters only), `includes`, `startsWith`,
 * `split` on one character, decimal digits and `Number(...)` on a string.
 */
module Strings {
  import opened Wrappers

  /** The characters JavaScript's `trim` removes and the regular expression `\s` matches. */
  predicate IsSpace(c: char) {
    c == '\t' || c == '\n' || c == '\U{B}' || c == '\U{C}' || c == '\r' || c == ' '
    || c == '\U{A0}' || c == '\U{1680}' || ('\U{2000}' <= c <= '\U{200A}')
    || c == '\U{2028}' || c == '\U{2029}' || c == '\U{202F}' || c == '\U{205F}'
    || c == '\U{3000}' || c == '\U{FEFF}'
  }

  predicate AllSpace(s: string) {
    forall i :: 0 <= i < |s| ==> IsSpace(s[i])
  }

  /** Number of white-space characters at the start of `s`. */
  function LeadingSpaces(s: string): (n: nat)
    ensures n <= |s|
    ensures forall i :: 0 <= i < n ==> IsSpace(s[i])
    ensures n < |s| ==> !IsSpace(s[n])
  {
    if |s| > 0 && IsSpace(s[0]) then 1 + LeadingSpaces(s[1..]) else 0
  }

  /** Number of white-space characters at the end of `s`. */
  function TrailingSpaces(s: string): (n: nat)
    ensures n <= |s|
    ensures forall i :: |s| - n <= i < |s| ==> IsSpace(s[i])
    ensures n < |s| ==> !IsSpace(s[|s| - 1 - n])
  {
    if |s| > 0 && IsSpace(s[|s| - 1]) then 1 + TrailingSpaces(s[..|s| - 1]) else 0
  }

  /** An optional string field that JavaScript reads as true: present and not empty. */
  predicate Given(field: Option<string>) {
    field.Some? && field.value != ""
  }

  /** `(field || "")`. */
  function OrEmpty(field: Option<string>): string {
    if field.Some? then field.value else ""
  }

  /** `s.trim()`. */
  function Trim(s: string): (r: string)
    ensures |r| <= |s|
    ensures r != [] ==> !IsSpace(r[0]) && !IsSpace(r[|r| - 1])
    ensures r == [] <==> AllSpace(s)
  {
    var t := s[LeadingSpaces(s)..];
    t[..|t| - TrailingSpaces(t)]
  }

  /** The trim of `s` is the block of `s` after its leading white space. */
  lemma TrimIsSlice(s: string)
    ensures LeadingSpaces(s) + |Trim(s)| <= |s|
    ensures forall i :: 0 <= i < |Trim(s)| ==> Trim(s)[i] == s[LeadingSpaces(s) + i]
  {
  }

  /** A string that neither starts nor ends with white space is its own trim. */
  lemma TrimUnchanged(s: string)
    requires s != [] ==> !IsSpace(s[0]) && !IsSpace(s[|s| - 1])
    ensures Trim(s) == s
  {
  }

  lemma TrimIdempotent(s: string)
    ensures Trim(Trim(s)) == Trim(s)
  {
  }

  /** `c.toLowerCase()` for the ASCII letters; every other character is kept. */
  function LowerChar(c: char): (d: char)
  {
    if 'A' <= c <= 'Z' then (c as int + 32) as char else c
  }

  /** `s.toLowerCase()`, ASCII letters only. */
  function ToLower(s: string): (r: string)
    ensures |r| == |s|
    ensures forall i :: 0 <= i < |s| ==> r[i] == LowerChar(s[i])
  {
    if s == [] then [] else [LowerChar(s[0])] + ToLower(s[1..])
  }

  /** Lowering a lowered string changes nothing. */
  lemma ToLowerIdempotent(s: string)
    ensures ToLower(ToLower(s)) == ToLower(s)
  {
  }

  /** Lowering a character twice is lowering it once. */
  lemma LowerCharIdempotent(c: char)
    ensures LowerChar(LowerChar(c)) == LowerChar(c)
  {
  }

  /** Trimming a lowered string leaves only characters that lowering keeps. */
  lemma TrimOfLowerIsLower(s: string)
    ensures forall i :: 0 <= i < |Trim(ToLower(s))| ==> LowerChar(Trim(ToLower(s))[i]) == Trim(ToLower(s))[i]
  {
    var lowered := ToLower(s);
    var r := Trim(lowered);
    TrimIsSlice(lowered);
    forall i | 0 <= i < |r|
      ensures LowerChar(r[i]) == r[i]
    {
      var c := s[LeadingSpaces(lowered) + i];
      LowerCharIdempotent(c);
    }
  }

  /** No ASCII upper-case letter occurs in `s`. */
  predicate NoUpper(s: string) {
    forall i :: 0 <= i < |s| ==> !('A' <= s[i] <= 'Z')
  }

  /** Lowering a string without upper-case letters changes nothing. */
  lemma ToLowerNoUpper(s: string)
    requires NoUpper(s)
    ensures ToLower(s) == s
  {
  }

  /** `s.includes(q)`: `q` occurs as a contiguous block of `s`. */
  predicate Contains(s: string, q: string)
    decreases |s|
  {
    q <= s || (|s| > 0 && Contains(s[1..], q))
  }

  /** `s.startsWith(p)`. */
  predicate StartsWith(s: string, p: string) {
    p <= s
  }

  /** Position of the first `c` in `s`. */
  function IndexOfChar(s: string, c: char): (i: nat)
    requires c in s
    ensures i < |s| && s[i] == c && c !in s[..i]
  {
    if s[0] == c then 0
    else
      assert c in s[1..] by { var k :| 0 <= k < |s| && s[k] == c; assert s[1..][k - 1] == c; }
      var j := IndexOfChar(s[1..], c);
      assert s[..j + 1] == [s[0]] + s[1..][..j];
      1 + j
  }

  /** `s.split(sep)` for a one-character separator. */
  function Split(s: string, sep: char): (parts: seq<string>)
    ensures |parts| >= 1
    ensures forall k :: 0 <= k < |parts| ==> sep !in parts[k]
    ensures sep !in s ==> parts == [s]
    ensures sep in s ==> |parts| >= 2
    decreases |s|
  {
    if sep !in s then [s]
    else
      var i := IndexOfChar(s, sep);
      [s[..i]] + Split(s[i + 1..], sep)
  }

  /** Splitting a string built with the separator gives back its first piece. */
  lemma SplitCons(a: string, sep: char, b: string)
    requires sep !in a
    ensures Split(a + [sep] + b, sep) == [a] + Split(b, sep)
  {
    var s := a + [sep] + b;
    assert s[|a|] == sep;
    var i := IndexOfChar(s, sep);
    assert s[..|a|] == a;
    assert i == |a|;
    assert s[..i] == a;
    assert s[i + 1..] == b;
  }
  /** Three separator-free parts joined by the separator split back into themselves. */
  lemma SplitThree(a: string, sep: char, b: string, c: string)
    requires sep !in a && sep !in b && sep !in c
    ensures Split(a + [sep] + b + [sep] + c, sep) == [a, b, c]
  {
    var rest := b + [sep] + c;
    SplitCons(b, sep, c);
    SplitCons(a, sep, rest);
    assert a + [sep] + b + [sep] + c == a + [sep] + rest;
  }


  /** The array index `i` of a `split` result as JavaScript interpolates it:
      a missing part reads as `undefined`. */
  function PartOr(parts: seq<string>, i: nat): string {
    if i < |parts| then parts[i] else "undefined"
  }

  predicate IsDigit(c: char) {
    '0' <= c <= '9'
  }

  predicate AllDigits(s: string) {
    forall i :: 0 <= i < |s| ==> IsDigit(s[i])
  }

  /** A separator that is not a digit does not occur in a string of digits. */
  lemma NoSeparatorInDigits(s: string, c: char)
    requires AllDigits(s) && !IsDigit(c)
    ensures c !in s
  {
  }

  function DigitValue(c: char): nat
    requires IsDigit(c)
  {
    c as int - '0' as int
  }

  function DigitChar(d: nat): (c: char)
    requires d < 10
    ensures IsDigit(c) && DigitValue(c) == d
  {
    ('0' as int + d) as char
  }

  /** The value of a string of decimal digits. */
  function DigitsValue(s: string): nat
    requires AllDigits(s)
  {
    if s == [] then 0 else DigitsValue(s[..|s| - 1]) * 10 + DigitValue(s[|s| - 1])
  }

  /** `String(n)` for a natural number. */
  function NatToString(n: nat): (s: string)
    ensures |s| >= 1 && AllDigits(s)
    ensures n < 10 <==> |s| == 1
  {
    if n < 10 then [DigitChar(n)] else NatToString(n / 10) + [DigitChar(n % 10)]
  }

  lemma {:induction false} NatToStringRoundTrip(n: nat)
    ensures DigitsValue(NatToString(n)) == n
  {
    if n >= 10 {
      var s := NatToString(n);
      assert s[..|s| - 1] == NatToString(n / 10);
      NatToStringRoundTrip(n / 10);
    }
  }

  /** `String(n).padStart(2, '0')`. */
  function PadTwo(n: nat): (s: string)
    ensures AllDigits(s) && DigitsValue(s) == n
    ensures n < 100 ==> |s| == 2
  {
    NatToStringRoundTrip(n);
    var d := NatToString(n);
    if |d| < 2 then
      assert DigitsValue("0" + d) == DigitsValue(d) by {
        assert ("0" + d)[..1] == "0";
      }
      "0" + d
    else d
  }

  /**
   * `Number(s)` for a string, on the forms this application meets: after
   * trimming, the empty string is 0 and a run of decimal digits is its value;
   * anything else is NaN (`None`).
   */
  function StringToNumber(s: string): (r: Option<int>)
    ensures r.Some? ==> r.value >= 0
    ensures AllDigits(s) && s != [] ==> r == Some(DigitsValue(s))
  {
    if AllDigits(s) && s != [] then
      TrimUnchanged(s);
      Some(DigitsValue(s))
    else
    var t := Trim(s);
    if t == [] then Some(0)
    else if AllDigits(t) then Some(DigitsValue(t))
    else None
  }

  /** The cents of at most two decimals written after the point: "" is 0, "5" is 50, "05" is 5. */
  function FractionCents(f: string): (c: nat)
    requires AllDigits(f) && |f| <= 2
    ensures c < 100
  {
    if |f| == 0 then 0
    else if |f| == 1 then DigitValue(f[0]) * 10
    else DigitValue(f[0]) * 10 + DigitValue(f[1])
  }

  /**
   * `Number(s)` of an amount in dollars, as whole cents. After trimming, the
   * forms `StringToNumber` reads are that many dollars, and digits around one
   * '.' with at most two decimals ("19.99", "19.9", ".5", "5.") are read to
   * the cent; anything else is `None`.
   */
  function CentsOf(s: string): (r: Option<int>)
    ensures r.Some? ==> r.value >= 0
    ensures StringToNumber(s).Some? ==> r == Some(StringToNumber(s).value * 100)
  {
    var parts := Split(Trim(s), '.');
    if |parts| == 1 then
      match StringToNumber(s)
      case None => None
      case Some(n) => Some(n * 100)
    else
      NumberHasNoPoint(s);
      if |parts| == 2 then PointCents(parts[0], parts[1]) else None
  }

  /** Whole dollars and at most two decimals, either side possibly empty but not both. */
  function PointCents(w: string, f: string): (r: Option<int>)
    ensures r.Some? ==> r.value >= 0
  {
    if AllDigits(w) && AllDigits(f) && |f| <= 2 && w + f != [] then
      Some(DigitsValue(w) * 100 + FractionCents(f))
    else None
  }

  /** Text that `StringToNumber` reads has no '.' once trimmed. */
  lemma NumberHasNoPoint(s: string)
    requires '.' in Trim(s)
    ensures StringToNumber(s).None?
  {
    if AllDigits(s) && s != [] {
      TrimUnchanged(s);
    }
  }

  /** Digits, a point and two digits are read as dollars and cents. */
  lemma CentsOfDecimal(w: string, f: string)
    requires AllDigits(w) && AllDigits(f) && |f| == 2
    ensures CentsOf(w + "." + f) == Some(DigitsValue(w) * 100 + DigitsValue(f))
  {
    PointSplit(w, f);
    CentsOfSplit(w + "." + f, w, f);
    TwoDecimals(w, f);
  }

  lemma TwoDecimals(w: string, f: string)
    requires AllDigits(w) && AllDigits(f) && |f| == 2
    ensures PointCents(w, f) == Some(DigitsValue(w) * 100 + DigitsValue(f))
  {
    TwoDigitsValue(f);
  }

  /** Text that trims and splits at its one point into `w` and `f` is read by `PointCents`. */
  lemma CentsOfSplit(s: string, w: string, f: string)
    requires Split(Trim(s), '.') == [w, f]
    ensures CentsOf(s) == PointCents(w, f)
  {
  }

  /** Two digits around a point need no trimming and split back into themselves. */
  lemma PointSplit(w: string, f: string)
    requires AllDigits(w) && AllDigits(f) && f != []
    ensures Trim(w + "." + f) == w + "." + f
    ensures Split(w + "." + f, '.') == [w, f]
  {
    var s := w + "." + f;
    assert s == w + ['.'] + f;
    assert s[|s| - 1] == f[|f| - 1];
    assert !IsSpace(s[0]) && !IsSpace(s[|s| - 1]);
    TrimUnchanged(s);
    assert '.' !in w && '.' !in f;
    SplitCons(w, '.', f);
  }

  lemma TwoDigitsValue(f: string)
    requires AllDigits(f) && |f| == 2
    ensures DigitsValue(f) == FractionCents(f)
  {
    var head := f[..1];
    assert head[..0] == [] && head[0] == f[0];
    assert DigitsValue(head) == DigitValue(f[0]);
    assert f[..|f| - 1] == head;
  }
}
