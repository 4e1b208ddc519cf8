/**
 * The progress-map keys of the course player: the template
 * `${courseId}-${chapterId}` used throughout the app, with the numeric ids
 * written in decimal as JavaScript's number-to-string conversion does, and
 * the leading-digit part of `parseInt` that the player uses to read its
 * route parameter.
 */
module ProgressKeys {
  import opened Wrappers

  predicate IsDigit(c: char) {
    '0' <= c <= '9'
  }

  function DigitChar(d: nat): (c: char)
    requires d < 10
    ensures IsDigit(c) && DigitValue(c) == d
  {
    "0123456789"[d]
  }

  function DigitValue(c: char): nat
    requires IsDigit(c)
  {
    (c as int - '0' as int) as nat
  }

  predicate AllDigits(s: string) {
    forall i :: 0 <= i < |s| ==> IsDigit(s[i])
  }

  /** Decimal text of a non-negative integer, without leading zeros. */
  function NatToString(n: nat): (s: string)
    ensures |s| >= 1 && AllDigits(s)
    ensures (|s| == 1) == (n < 10)
    ensures |s| > 1 ==> s[0] != '0'
    decreases n
  {
    if n < 10 then [DigitChar(n)] else NatToString(n / 10) + [DigitChar(n % 10)]
  }

  /** The number a string of decimal digits denotes, most significant first. */
  function DigitsValue(s: string): nat
    requires AllDigits(s)
  {
    if s == [] then 0 else DigitsValue(s[..|s| - 1]) * 10 + DigitValue(s[|s| - 1])
  }

  /** The longest prefix of `s` made of decimal digits. */
  function LeadingDigits(s: string): (d: string)
    ensures AllDigits(d) && d <= s
    ensures |d| < |s| ==> !IsDigit(s[|d|])
  {
    if s == [] || !IsDigit(s[0]) then [] else [s[0]] + LeadingDigits(s[1..])
  }

  /**
   * `parseInt(s)` for a string that starts with its digits: the value of the
   * leading digits, or `None` (JavaScript's NaN) when there are none.
   */
  function ParseIntPrefix(s: string): (r: Option<nat>)
    ensures r.None? <==> s == [] || !IsDigit(s[0])
    ensures r.Some? ==> r.value == DigitsValue(LeadingDigits(s))
  {
    var d := LeadingDigits(s);
    if d == [] then None else Some(DigitsValue(d))
  }

  /** The key of one chapter of one course in the progress map. */
  function Key(courseText: string, chapterId: nat): (k: string)
    ensures |k| == |courseText| + 1 + |NatToString(chapterId)|
    ensures k[|courseText|] == '-'
    ensures k[..|courseText|] == courseText && k[|courseText| + 1..] == NatToString(chapterId)
  {
    courseText + "-" + NatToString(chapterId)
  }

  /** The key written for a course given by its numeric id. */
  function CourseKey(courseId: nat, chapterId: nat): string {
    Key(NatToString(courseId), chapterId)
  }

  lemma {:induction false} NatToStringInjective(a: nat, b: nat)
    requires NatToString(a) == NatToString(b)
    ensures a == b
    decreases a
  {
    var s := NatToString(a);
    if a >= 10 {
      assert b >= 10;
      var pa, pb := NatToString(a / 10), NatToString(b / 10);
      assert pa == s[..|s| - 1] && pb == s[..|s| - 1];
      NatToStringInjective(a / 10, b / 10);
      assert DigitValue(s[|s| - 1]) == a % 10 == b % 10;
    } else {
      assert DigitValue(s[0]) == a == b;
    }
  }

  lemma {:induction false} DigitsOfNatToString(n: nat)
    ensures DigitsValue(NatToString(n)) == n
    decreases n
  {
    var s := NatToString(n);
    if n >= 10 {
      assert s[..|s| - 1] == NatToString(n / 10);
      DigitsOfNatToString(n / 10);
    } else {
      assert s[..0] == [];
    }
  }

  lemma {:induction false} LeadingDigitsOfDigits(s: string)
    requires AllDigits(s)
    ensures LeadingDigits(s) == s
  {
    if s != [] {
      LeadingDigitsOfDigits(s[1..]);
    }
  }

  /** Reading back the decimal text of an id gives the id: `parseInt(String(n)) === n`. */
  lemma ParseIntRoundTrip(n: nat)
    ensures ParseIntPrefix(NatToString(n)) == Some(n)
  {
    LeadingDigitsOfDigits(NatToString(n));
    DigitsOfNatToString(n);
  }

  /**
   * Different chapters of different or equal courses never share a key, so an
   * update of one chapter's entry leaves every other chapter's entry alone.
   */
  lemma CourseKeyInjective(c1: nat, ch1: nat, c2: nat, ch2: nat)
    requires CourseKey(c1, ch1) == CourseKey(c2, ch2)
    ensures c1 == c2 && ch1 == ch2
  {
    var s1, s2 := NatToString(c1), NatToString(c2);
    var k := CourseKey(c1, ch1);
    if |s1| < |s2| {
      assert false;
    } else if |s2| < |s1| {
      assert false;
    }
    assert s1 == k[..|s1|] == s2;
    NatToStringInjective(c1, c2);
    assert NatToString(ch1) == k[|s1| + 1..] == NatToString(ch2);
    NatToStringInjective(ch1, ch2);
  }
}
