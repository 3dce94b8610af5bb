/**
 * String helpers shared by the parsers, the command builders and task-id
 * prefix: JavaScript's notion of whitespace and `String.prototype.trim`,
 * decimal rendering of numbers (`String(n)`, `Number(s)` on digit strings),
 * `Array.prototype.join` with its inverse, and the `padStart(2, '0')` idiom.
 */
module Text {

  /** True for every character that JavaScript's `\s` class and `String.prototype.trim`
      treat as white space: the WhiteSpace and LineTerminator code points. */
  predicate IsWhitespace(c: char) {
    || c == ' ' || c == '\t' || c == '\n' || c == '\r'
    || c == '\U{000B}' || c == '\U{000C}' || c == '\U{00A0}' || c == '\U{1680}'
    || ('\U{2000}' <= c <= '\U{200A}')
    || c == '\U{2028}' || c == '\U{2029}' || c == '\U{202F}' || c == '\U{205F}'
    || c == '\U{3000}' || c == '\U{FEFF}'
  }

  predicate AllWhitespace(s: string) {
    forall i :: 0 <= i < |s| ==> IsWhitespace(s[i])
  }

  /** The first index at or after `i` that does not hold white space, or `|s|`. */
  function SkipWhitespace(s: string, i: nat): (n: nat)
    requires i <= |s|
    ensures i <= n <= |s|
    ensures forall k :: i <= k < n ==> IsWhitespace(s[k])
    ensures n < |s| ==> !IsWhitespace(s[n])
    decreases |s| - i
  {
    if i == |s| || !IsWhitespace(s[i]) then i else SkipWhitespace(s, i + 1)
  }

  /** The end of `s[lo..j]` once its trailing white space is cut off. */
  function SkipWhitespaceBack(s: string, lo: nat, j: nat): (e: nat)
    requires lo <= j <= |s|
    ensures lo <= e <= j
    ensures forall k :: e <= k < j ==> IsWhitespace(s[k])
    ensures e > lo ==> !IsWhitespace(s[e - 1])
  {
    if j == lo || !IsWhitespace(s[j - 1]) then j else SkipWhitespaceBack(s, lo, j - 1)
  }

  /** Length of the run of white space at the start of `s`. */
  function LeadingWhitespace(s: string): (n: nat)
    ensures n <= |s|
    ensures AllWhitespace(s[..n])
    ensures n < |s| ==> !IsWhitespace(s[n])
  {
    SkipWhitespace(s, 0)
  }

  /** `String.prototype.trim`: `s` without its leading and trailing white space. */
  function Trim(s: string): (r: string)
    ensures LeadingWhitespace(s) + |r| <= |s|
    ensures r == s[LeadingWhitespace(s)..LeadingWhitespace(s) + |r|]
    ensures AllWhitespace(s[LeadingWhitespace(s) + |r|..])
    ensures r != [] ==> !IsWhitespace(r[0]) && !IsWhitespace(r[|r| - 1])
    ensures r == [] <==> AllWhitespace(s)
  {
    var a := LeadingWhitespace(s);
    var e := SkipWhitespaceBack(s, a, |s|);
    assert AllWhitespace(s) ==> a == |s|;
    assert a == |s| ==> AllWhitespace(s) by {
      if a == |s| { assert s == s[..a]; }
    }
    s[a..e]
  }

  // ---------------------------------------------------------------------------
  // Decimal digits

  predicate IsDigit(c: char) {
    '0' <= c <= '9'
  }

  predicate IsDigits(s: string) {
    forall i :: 0 <= i < |s| ==> IsDigit(s[i])
  }

  /** A canonical decimal numeral: at least one digit and no leading zero unless it is "0". */
  predicate IsNumeral(s: string) {
    |s| >= 1 && IsDigits(s) && (s[0] == '0' ==> |s| == 1)
  }

  function DigitChar(d: nat): (c: char)
    requires d < 10
    ensures IsDigit(c) && c as int - '0' as int == d
  {
    (d + '0' as int) as char
  }

  /** The value of a string of decimal digits (`Number(s)` for such a string). */
  function DigitsValue(s: string): nat
    requires IsDigits(s)
  {
    if |s| == 0 then 0
    else DigitsValue(s[..|s| - 1]) * 10 + (s[|s| - 1] as int - '0' as int)
  }

  /** `String(n)` for a non-negative integer: its canonical decimal numeral. */
  function NatToString(n: nat): (s: string)
    ensures IsNumeral(s)
    ensures |s| == 1 <==> n < 10
  {
    if n < 10 then [DigitChar(n)]
    else
      var s := NatToString(n / 10) + [DigitChar(n % 10)];
      assert s[0] == NatToString(n / 10)[0];
      s
  }

  /** Reading back the numeral `String(n)` gives `n`. */
  lemma {:induction false} DigitsValueOfNatToString(n: nat)
    ensures DigitsValue(NatToString(n)) == n
  {
    if n >= 10 {
      var s := NatToString(n);
      assert s[..|s| - 1] == NatToString(n / 10);
      DigitsValueOfNatToString(n / 10);
    }
  }

  lemma {:induction false} NumeralValuePositive(s: string)
    requires IsDigits(s) && |s| >= 1 && s[0] != '0'
    ensures DigitsValue(s) > 0
  {
    if |s| > 1 {
      NumeralValuePositive(s[..|s| - 1]);
    }
  }

  lemma TwoDigitsValue(t: string)
    requires IsDigits(t) && |t| == 2
    ensures DigitsValue(t) == (t[0] as int - '0' as int) * 10 + (t[1] as int - '0' as int)
  {
    var h := t[..1];
    assert t[..|t| - 1] == h && h[..|h| - 1] == [] && h[0] == t[0];
    assert DigitsValue(h) == t[0] as int - '0' as int;
  }

  /** Digit strings of the same length are equal exactly when their values are. */
  lemma {:induction false} DigitsValueInjective(s: string, t: string)
    requires IsDigits(s) && IsDigits(t) && |s| == |t|
    requires DigitsValue(s) == DigitsValue(t)
    ensures s == t
  {
    if |s| > 0 {
      var n := |s| - 1;
      assert DigitsValue(s) % 10 == s[n] as int - '0' as int;
      assert DigitsValue(t) % 10 == t[n] as int - '0' as int;
      DigitsValueInjective(s[..n], t[..n]);
      assert s == s[..n] + [s[n]] && t == t[..n] + [t[n]];
    }
  }

  /** Rendering the value of a canonical numeral gives back the numeral. */
  lemma {:induction false} NatToStringOfDigitsValue(s: string)
    requires IsNumeral(s)
    ensures NatToString(DigitsValue(s)) == s
  {
    if |s| > 1 {
      var init := s[..|s| - 1];
      NumeralValuePositive(init);
      NatToStringOfDigitsValue(init);
      var v := DigitsValue(s);
      assert v / 10 == DigitsValue(init) && v % 10 == s[|s| - 1] as int - '0' as int;
      assert s == init + [s[|s| - 1]];
    }
  }

  /** `String(n).padStart(2, '0')`. */
  function PadTwo(n: nat): (s: string)
    ensures n < 100 ==> |s| == 2 && IsDigits(s) && DigitsValue(s) == n
    ensures n >= 100 ==> s == NatToString(n)
  {
    var d := NatToString(n);
    DigitsValueOfNatToString(n);
    if |d| >= 2 then
      assert n < 100 ==> |d| == 2;
      d
    else
      var s := "0" + d;
      assert s[..1] == "0" && s[1..] == d;
      s
  }

  // ---------------------------------------------------------------------------
  // Joining and splitting on a separator character

  /** `Array.prototype.join(sep)` on strings. */
  function Join(parts: seq<string>, sep: char): string {
    if |parts| == 0 then ""
    else if |parts| == 1 then parts[0]
    else parts[0] + [sep] + Join(parts[1..], sep)
  }

  /** `String.prototype.split(sep)`: the pieces between occurrences of `sep`. */
  function Split(s: string, sep: char): (r: seq<string>)
    ensures |r| >= 1
  {
    if |s| == 0 then [""]
    else
      var rest := Split(s[1..], sep);
      if s[0] == sep then [""] + rest else [[s[0]] + rest[0]] + rest[1..]
  }

  lemma {:induction false} SplitAfterPiece(a: string, sep: char, tail: seq<string>, b: string)
    requires sep !in a
    requires Split(b, sep) == tail
    ensures Split(a + b, sep) == [a + Split(b, sep)[0]] + tail[1..]
  {
    if |a| == 0 {
      assert a + b == b && a + tail[0] == tail[0];
      assert tail == [tail[0]] + tail[1..];
    } else {
      SplitAfterPiece(a[1..], sep, tail, b);
      assert (a + b)[1..] == a[1..] + b;
      assert [a[0]] + (a[1..] + tail[0]) == a + tail[0];
    }
  }

  /** Splitting a joined list of separator-free strings recovers the list. */
  lemma {:induction false} SplitJoin(parts: seq<string>, sep: char)
    requires |parts| >= 1
    requires forall i :: 0 <= i < |parts| ==> sep !in parts[i]
    ensures Split(Join(parts, sep), sep) == parts
  {
    if |parts| == 1 {
      SplitAfterPiece(parts[0], sep, [""], "");
      assert parts[0] + "" == parts[0];
    } else {
      var rest := Join(parts[1..], sep);
      SplitJoin(parts[1..], sep);
      assert Split([sep] + rest, sep) == [""] + parts[1..] by {
        assert ([sep] + rest)[1..] == rest;
      }
      SplitAfterPiece(parts[0], sep, [""] + parts[1..], [sep] + rest);
      assert parts[0] + [sep] + rest == parts[0] + ([sep] + rest);
      assert parts[0] + "" == parts[0];
      assert parts == [parts[0]] + parts[1..];
    }
  }

  /** How many times `c` occurs in `s`. */
  function Count(c: char, s: string): nat {
    multiset(s)[c]
  }

  /** Occurrences in a concatenation add up. */
  lemma CountConcat(c: char, a: string, b: string)
    ensures Count(c, a + b) == Count(c, a) + Count(c, b)
  {
    assert multiset(a + b) == multiset(a) + multiset(b);
  }

  /** A leading character adds one occurrence of itself and none of anything else. */
  lemma CountCons(c: char, x: char, t: string)
    ensures Count(c, [x] + t) == (if x == c then 1 else 0) + Count(c, t)
  {
    assert multiset([x] + t) == multiset{x} + multiset(t);
  }

  /** The occurrences in a non-empty string: its first character, then the rest. */
  lemma CountHead(c: char, s: string)
    requires |s| > 0
    ensures Count(c, s) == (if s[0] == c then 1 else 0) + Count(c, s[1..])
  {
    assert s == [s[0]] + s[1..];
    CountCons(c, s[0], s[1..]);
  }

  // ---------------------------------------------------------------------------
  // Template literals

  /** A template literal: its literal and interpolated pieces, concatenated in order. */
  function Concat(pieces: seq<string>): string {
    if |pieces| == 0 then "" else pieces[0] + Concat(pieces[1..])
  }

  /** A template splits at any piece boundary. */
  lemma {:induction false} ConcatSplit(pieces: seq<string>, i: nat)
    requires i <= |pieces|
    ensures Concat(pieces) == Concat(pieces[..i]) + Concat(pieces[i..])
  {
    if i > 0 {
      ConcatSplit(pieces[1..], i - 1);
      assert pieces[1..][..i - 1] == pieces[..i][1..];
      assert pieces[1..][i - 1..] == pieces[i..];
    }
  }

  lemma ConcatTwo(a: string, b: string)
    ensures Concat([a, b]) == a + b
  {
    assert [a, b][1..] == [b] && [b][1..] == [];
    assert Concat([b]) == b + Concat([]) == b + "" == b;
  }

  lemma ConcatThree(a: string, b: string, c: string)
    ensures Concat([a, b, c]) == a + b + c
  {
    assert [a, b, c][1..] == [b, c];
    ConcatTwo(b, c);
  }

  lemma ConcatFour(a: string, b: string, c: string, d: string)
    ensures Concat([a, b, c, d]) == a + b + c + d
  {
    assert [a, b, c, d][1..] == [b, c, d] && [b, c, d][1..] == [c, d];
    ConcatTwo(c, d);
  }

  predicate IsPrefix(prefix: string, s: string) {
    |prefix| <= |s| && s[..|prefix|] == prefix
  }

  predicate IsSuffix(suffix: string, s: string) {
    |suffix| <= |s| && s[|s| - |suffix|..] == suffix
  }

  predicate IsInfix(part: string, s: string) {
    exists k :: 0 <= k <= |s| && IsPrefix(part, s[k..])
  }

  /** Cutting a template into three runs of pieces: the first renders to a prefix,
      the middle one occurs in it, and the last renders to a suffix. */
  lemma ConcatParts(pieces: seq<string>, i: nat, j: nat)
    requires i <= j <= |pieces|
    ensures IsPrefix(Concat(pieces[..i]), Concat(pieces))
    ensures IsInfix(Concat(pieces[i..j]), Concat(pieces))
    ensures IsSuffix(Concat(pieces[j..]), Concat(pieces))
  {
    var a, b, c := Concat(pieces[..i]), Concat(pieces[i..j]), Concat(pieces[j..]);
    ConcatSplit(pieces, j);
    ConcatSplit(pieces[..j], i);
    assert pieces[..j][..i] == pieces[..i] && pieces[..j][i..] == pieces[i..j];
    ThreeParts(a, b, c);
  }

  /** In `a + b + c`, `a` is a prefix, `b` an infix and `c` a suffix. */
  lemma ThreeParts(a: string, b: string, c: string)
    ensures IsPrefix(a, a + b + c) && IsInfix(b, a + b + c) && IsSuffix(c, a + b + c)
  {
    var s := a + b + c;
    assert s[..|a|] == a;
    assert s[|a|..][..|b|] == b;
    assert IsPrefix(b, s[|a|..]);
    assert s[|s| - |c|..] == c;
  }
}
