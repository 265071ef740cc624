/** Java string operations the services rely on, over `seq<char>`:
    prefix and suffix tests, `String.replace`, `Long.toString` and
    `Long.valueOf`, and the blank test behind `@NotBlank`. */
module Text {
  import opened Wrappers

  predicate StartsWith(s: string, prefix: string) {
    |prefix| <= |s| && s[..|prefix|] == prefix
  }

  predicate EndsWith(s: string, suffix: string) {
    |suffix| <= |s| && s[|s| - |suffix|..] == suffix
  }

  /** The window of `s` starting at `i` spells `t`. */
  predicate OccursAt(s: string, t: string, i: int) {
    0 <= i && i + |t| <= |s| && s[i..i + |t|] == t
  }

  ghost predicate Contains(s: string, t: string) {
    exists i :: OccursAt(s, t, i)
  }

  /** A request-path pattern ending in a double star under `base`: the base
      itself, or anything below it after a slash. */
  predicate UnderPath(path: string, base: string) {
    path == base || StartsWith(path, base + "/")
  }

  // ---------------------------------------------------------------------------
  // String.replace(CharSequence, CharSequence)
  // ---------------------------------------------------------------------------

  /** Java's `s.replace(target, replacement)`: every occurrence of `target`,
      scanned left to right without overlap, becomes `replacement`. */
  function ReplaceAll(s: string, target: string, replacement: string): string
    requires |target| > 0
    decreases |s|
  {
    if |s| < |target| then s
    else if s[..|target|] == target then replacement + ReplaceAll(s[|target|..], target, replacement)
    else [s[0]] + ReplaceAll(s[1..], target, replacement)
  }

  /** A string that does not contain the target comes back unchanged. */
  lemma {:induction false} ReplaceAllWithoutMatch(s: string, target: string, replacement: string)
    requires |target| > 0
    requires !Contains(s, target)
    ensures ReplaceAll(s, target, replacement) == s
    decreases |s|
  {
    if |s| < |target| {
    } else {
      assert s[0..0 + |target|] == s[..|target|];
      assert !OccursAt(s, target, 0);
      ContainsInTail(s, target);
      ReplaceAllWithoutMatch(s[1..], target, replacement);
    }
  }

  lemma ContainsInTail(s: string, t: string)
    requires |s| > 0
    ensures Contains(s[1..], t) ==> Contains(s, t)
  {
    if Contains(s[1..], t) {
      var i :| OccursAt(s[1..], t, i);
      assert s[i + 1..i + 1 + |t|] == s[1..][i..i + |t|];
      assert OccursAt(s, t, i + 1);
    }
  }

  /** A character that does not occur in the target cuts the scan in two:
      no occurrence can straddle it. */
  lemma {:induction false} ReplaceAllSplitsAt(x: string, c: char, z: string, target: string, replacement: string)
    requires |target| > 0
    requires c !in target
    ensures ReplaceAll(x + [c] + z, target, replacement)
         == ReplaceAll(x, target, replacement) + [c] + ReplaceAll(z, target, replacement)
    decreases |x|
  {
    if |x| >= |target| {
      if x[..|target|] == target {
        ReplaceAllSplitsAt(x[|target|..], c, z, target, replacement);
        SplitAfterMatch(x, c, z, target, replacement);
      } else {
        ReplaceAllSplitsAt(x[1..], c, z, target, replacement);
        SplitAfterSkip(x, c, z, target, replacement);
      }
    } else {
      SplitAtShortHead(x, c, z, target, replacement);
    }
  }

  /** One step of the scan when the text starts with the target. */
  lemma ReplaceAllAtMatch(s: string, target: string, replacement: string)
    requires |target| > 0 && |s| >= |target| && s[..|target|] == target
    ensures ReplaceAll(s, target, replacement) == replacement + ReplaceAll(s[|target|..], target, replacement)
  {
  }

  /** One step of the scan when the text does not start with the target. */
  lemma ReplaceAllAtSkip(s: string, target: string, replacement: string)
    requires |target| > 0 && |s| >= |target| && s[..|target|] != target
    ensures ReplaceAll(s, target, replacement) == [s[0]] + ReplaceAll(s[1..], target, replacement)
  {
  }

  lemma Regroup(a: string, b: string, c: char, d: string)
    ensures a + (b + [c] + d) == (a + b) + [c] + d
  {
  }

  /** The scan of `x + [c] + z` starts as the scan of `x` does. */
  lemma MatchHead(x: string, c: char, z: string, target: string, replacement: string)
    requires |target| > 0 && |x| >= |target| && x[..|target|] == target
    ensures ReplaceAll(x + [c] + z, target, replacement)
         == replacement + ReplaceAll(x[|target|..] + [c] + z, target, replacement)
  {
    var s := x + [c] + z;
    assert s[..|target|] == x[..|target|];
    assert s[|target|..] == x[|target|..] + [c] + z;
    ReplaceAllAtMatch(s, target, replacement);
  }

  lemma SkipHead(x: string, c: char, z: string, target: string, replacement: string)
    requires |target| > 0 && |x| >= |target| && x[..|target|] != target
    ensures ReplaceAll(x + [c] + z, target, replacement)
         == [x[0]] + ReplaceAll(x[1..] + [c] + z, target, replacement)
  {
    var s := x + [c] + z;
    assert s[..|target|] == x[..|target|];
    assert s[0] == x[0];
    assert s[1..] == x[1..] + [c] + z;
    ReplaceAllAtSkip(s, target, replacement);
  }

  /** The head starts with the target: both scans replace it first. */
  lemma SplitAfterMatch(x: string, c: char, z: string, target: string, replacement: string)
    requires |target| > 0 && |x| >= |target| && x[..|target|] == target
    requires ReplaceAll(x[|target|..] + [c] + z, target, replacement)
          == ReplaceAll(x[|target|..], target, replacement) + [c] + ReplaceAll(z, target, replacement)
    ensures ReplaceAll(x + [c] + z, target, replacement)
         == ReplaceAll(x, target, replacement) + [c] + ReplaceAll(z, target, replacement)
  {
    MatchHead(x, c, z, target, replacement);
    ReplaceAllAtMatch(x, target, replacement);
    Regroup(replacement, ReplaceAll(x[|target|..], target, replacement), c, ReplaceAll(z, target, replacement));
  }

  /** The head does not start with the target: both scans keep its first
      character. */
  lemma SplitAfterSkip(x: string, c: char, z: string, target: string, replacement: string)
    requires |target| > 0 && |x| >= |target| && x[..|target|] != target
    requires ReplaceAll(x[1..] + [c] + z, target, replacement)
          == ReplaceAll(x[1..], target, replacement) + [c] + ReplaceAll(z, target, replacement)
    ensures ReplaceAll(x + [c] + z, target, replacement)
         == ReplaceAll(x, target, replacement) + [c] + ReplaceAll(z, target, replacement)
  {
    SkipHead(x, c, z, target, replacement);
    ReplaceAllAtSkip(x, target, replacement);
    Regroup([x[0]], ReplaceAll(x[1..], target, replacement), c, ReplaceAll(z, target, replacement));
  }

  /** A head shorter than the target: no occurrence starts in it, since
      any would cover `c`. */
  lemma {:induction false} SplitAtShortHead(x: string, c: char, z: string, target: string, replacement: string)
    requires |target| > 0 && c !in target && |x| < |target|
    ensures ReplaceAll(x + [c] + z, target, replacement)
         == ReplaceAll(x, target, replacement) + [c] + ReplaceAll(z, target, replacement)
    decreases |x|
  {
    var s := x + [c] + z;
    assert ReplaceAll(x, target, replacement) == x;
    if |s| < |target| {
      assert ReplaceAll(z, target, replacement) == z;
      assert ReplaceAll(s, target, replacement) == s;
    } else {
      var rz := ReplaceAll(z, target, replacement);
      assert ReplaceAll(s, target, replacement) == [s[0]] + ReplaceAll(s[1..], target, replacement) by {
        assert s[..|target|][|x|] == c;
        ReplaceAllAtSkip(s, target, replacement);
      }
      if |x| == 0 {
        assert s[0] == c && s[1..] == z;
      } else {
        assert s[0] == x[0] && s[1..] == x[1..] + [c] + z;
        SplitAtShortHead(x[1..], c, z, target, replacement);
        assert ReplaceAll(x[1..], target, replacement) == x[1..];
        Regroup([x[0]], x[1..], c, rz);
        assert [x[0]] + x[1..] == x;
      }
    }
  }

  // ---------------------------------------------------------------------------
  // Decimal digits, Long.toString and Long.valueOf
  // ---------------------------------------------------------------------------

  predicate IsDigit(c: char) {
    '0' <= c <= '9'
  }

  predicate AllDigits(s: string) {
    forall i :: 0 <= i < |s| ==> IsDigit(s[i])
  }

  function DigitChar(d: nat): (c: char)
    requires d < 10
    ensures IsDigit(c)
  {
    ('0' as int + d) as char
  }

  function DigitValue(c: char): (d: nat)
    requires IsDigit(c)
    ensures d < 10 && DigitChar(d) == c
  {
    c as int - '0' as int
  }

  /** Shortest decimal spelling of a natural number. */
  function NatText(n: nat): (r: string)
    ensures |r| > 0 && AllDigits(r)
    decreases n
  {
    if n < 10 then [DigitChar(n)] else NatText(n / 10) + [DigitChar(n % 10)]
  }

  /** Java's `Long.toString(n)`: a minus sign for negatives, then the digits. */
  function LongText(n: int): (r: string)
    ensures |r| > 0
    ensures n < 0 <==> r[0] == '-'
    ensures '/' !in r
  {
    if n < 0 then "-" + NatText(-n) else NatText(n)
  }

  /** Value of a string of decimal digits read most significant first. */
  function DigitsValue(s: string): nat
    requires AllDigits(s)
  {
    if |s| == 0 then 0 else 10 * DigitsValue(s[..|s| - 1]) + DigitValue(s[|s| - 1])
  }

  /** The range of a Java `long`. */
  predicate IsLong(n: int) {
    -0x8000_0000_0000_0000 <= n < 0x8000_0000_0000_0000
  }

  /** Java's `Long.valueOf(s)` in radix 10: an optional sign followed by at
      least one digit, and a value that fits a `long`; anything else is a
      `NumberFormatException`, modelled as `None`. */
  function ParseLong(s: string): (r: Option<int>)
    ensures r.Some? ==> IsLong(r.value)
    ensures r.Some? ==> |s| > 0 && (AllDigits(s) || ((s[0] == '-' || s[0] == '+') && AllDigits(s[1..])))
  {
    if |s| == 0 then None
    else
      var signed := s[0] == '-' || s[0] == '+';
      var digits := if signed then s[1..] else s;
      if |digits| == 0 || !AllDigits(digits) then None
      else
        var v: int := if s[0] == '-' then -(DigitsValue(digits) as int) else DigitsValue(digits);
        if IsLong(v) then Some(v) else None
  }

  lemma {:induction false} NatTextValue(n: nat)
    ensures DigitsValue(NatText(n)) == n
    decreases n
  {
    if n >= 10 {
      var t := NatText(n);
      assert t[..|t| - 1] == NatText(n / 10);
      NatTextValue(n / 10);
    }
  }

  /** Reading back what `Long.toString` wrote gives the number again. */
  lemma ParseLongText(n: int)
    requires IsLong(n)
    ensures ParseLong(LongText(n)) == Some(n)
  {
    var s := LongText(n);
    if n < 0 {
      var digits := NatText(-n);
      assert s[0] == '-' && s[1..] == digits;
      NatTextValue(-n);
      assert -(DigitsValue(digits) as int) == n;
    } else {
      var digits := NatText(n);
      assert s == digits && IsDigit(digits[0]);
      NatTextValue(n);
      assert DigitsValue(digits) == n;
    }
  }

  lemma NatTextInjective(a: nat, b: nat)
    requires NatText(a) == NatText(b)
    ensures a == b
  {
    NatTextValue(a);
    NatTextValue(b);
  }

  /** Distinct numbers have distinct decimal spellings. */
  lemma LongTextInjective(a: int, b: int)
    requires LongText(a) == LongText(b)
    ensures a == b
  {
    if a < 0 {
      assert LongText(a)[1..] == NatText(-a);
      assert LongText(b)[1..] == NatText(-b);
      NatTextInjective(-a, -b);
    } else {
      NatTextInjective(a, b);
    }
  }

  // ---------------------------------------------------------------------------
  // Blank strings
  // ---------------------------------------------------------------------------

  /** What `String.trim()` strips: every character up to and including the space. */
  predicate IsTrimmable(c: char) {
    c <= ' '
  }

  /** The blank test behind `@NotBlank`: nothing is left once the string is trimmed. */
  predicate IsBlank(s: string) {
    forall i :: 0 <= i < |s| ==> IsTrimmable(s[i])
  }
}
