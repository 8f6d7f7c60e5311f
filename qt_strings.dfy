/**
 * The two Qt string operations whose behaviour the scanner depends on:
 * QString::toInt (base 10), modelled as a signed-decimal parser into the
 * 32-bit int range, and QString::replace(before, "") modelled as RemoveAll.
 */
module QtStrings {
  import opened Options

  const INT_MIN: int := -0x8000_0000
  const INT_MAX: int := 0x7FFF_FFFF

  predicate IsDigit(c: char) {
    '0' <= c <= '9'
  }

  predicate AllDigits(s: string) {
    forall i :: 0 <= i < |s| ==> IsDigit(s[i])
  }

  function DigitValue(c: char): nat
    requires IsDigit(c)
  {
    (c as int) - ('0' as int)
  }

  /** The value of a string of decimal digits, most significant digit first. */
  function DigitsValue(s: string): nat
    requires AllDigits(s)
  {
    if |s| == 0 then 0 else 10 * DigitsValue(s[..|s| - 1]) + DigitValue(s[|s| - 1])
  }

  /**
   * QString::toInt(&ok) in base 10: an optional sign followed by at least
   * one decimal digit, whose value fits a 32-bit int; None when `ok` would
   * be false.
   */
  function ParseInt(s: string): (r: Option<int>)
    ensures r.Some? ==> INT_MIN <= r.value <= INT_MAX
    ensures r.Some? ==> exists i :: 0 <= i < |s| && IsDigit(s[i])
  {
    if |s| == 0 then None
    else
      var digits := if s[0] == '-' || s[0] == '+' then s[1..] else s;
      if |digits| == 0 || !AllDigits(digits) then None
      else
        var v: int := if s[0] == '-' then -(DigitsValue(digits) as int) else DigitsValue(digits);
        if INT_MIN <= v <= INT_MAX then
          assert IsDigit(s[|s| - 1]) by { assert s[|s| - 1] == digits[|digits| - 1]; }
          Some(v)
        else None
  }

  function DigitChar(d: nat): (c: char)
    requires d < 10
    ensures IsDigit(c) && DigitValue(c) == d
  {
    ('0' as int + d) as char
  }

  /** The decimal digits of `n`, without leading zeros. */
  function Digits(n: nat): (s: string)
    ensures |s| > 0 && AllDigits(s)
  {
    if n < 10 then [DigitChar(n)] else Digits(n / 10) + [DigitChar(n % 10)]
  }

  /** The decimal rendering of `n` (QString::number), with a minus sign when negative. */
  function Decimal(n: int): string {
    if n < 0 then "-" + Digits(-n) else Digits(n)
  }

  lemma {:induction false} DigitsValueOfDigits(n: nat)
    ensures DigitsValue(Digits(n)) == n
  {
    if n >= 10 {
      var s := Digits(n);
      assert s[..|s| - 1] == Digits(n / 10);
      DigitsValueOfDigits(n / 10);
    }
  }

  /** Parsing what QString::number prints gives the number back, over the whole int range. */
  lemma ParseDecimal(n: int)
    requires INT_MIN <= n <= INT_MAX
    ensures ParseInt(Decimal(n)) == Some(n)
  {
    if n < 0 {
      DigitsValueOfDigits(-n);
      ParseMinus(Digits(-n));
    } else {
      DigitsValueOfDigits(n);
      ParseUnsigned(Digits(n));
    }
  }

  /**
   * A run of digits, bare or after one sign, parses to its value when that
   * value fits a 32-bit int and is refused otherwise: out-of-range values
   * do not wrap.
   */
  lemma ParseDigits(d: string)
    requires |d| > 0 && AllDigits(d)
    ensures ParseInt(d) == if DigitsValue(d) <= INT_MAX then Some(DigitsValue(d)) else None
    ensures ParseInt("+" + d) == ParseInt(d)
    ensures ParseInt("-" + d) == if DigitsValue(d) <= -INT_MIN then Some(-(DigitsValue(d) as int)) else None
  {
    ParseUnsigned(d);
    ParsePlus(d);
    ParseMinus(d);
  }

  lemma ParseUnsigned(d: string)
    requires |d| > 0 && AllDigits(d)
    ensures ParseInt(d) == if DigitsValue(d) <= INT_MAX then Some(DigitsValue(d)) else None
  {
    assert IsDigit(d[0]);
  }

  lemma ParsePlus(d: string)
    requires |d| > 0 && AllDigits(d)
    ensures ParseInt("+" + d) == if DigitsValue(d) <= INT_MAX then Some(DigitsValue(d)) else None
  {
    var t := "+" + d;
    assert t[0] == '+' && t[1..] == d;
  }

  lemma ParseMinus(d: string)
    requires |d| > 0 && AllDigits(d)
    ensures ParseInt("-" + d) == if DigitsValue(d) <= -INT_MIN then Some(-(DigitsValue(d) as int)) else None
  {
    var t := "-" + d;
    assert t[0] == '-' && t[1..] == d;
  }

  /** A character that is neither a digit nor a sign, before or after a text, makes it unparsable. */
  lemma ParseRejectsGarbage(s: string, c: char)
    requires !IsDigit(c)
    ensures |s| > 0 ==> ParseInt(s + [c]) == None
    ensures c != '-' && c != '+' ==> ParseInt([c] + s) == None
  {
    if |s| > 0 {
      var t := s + [c];
      var digits := if t[0] == '-' || t[0] == '+' then t[1..] else t;
      assert digits[|digits| - 1] == c;
    }
  }

  /** Text that is not a number, or a number outside the 32-bit range, does not parse. */
  lemma ParseRejects()
    ensures ParseInt("") == None
    ensures ParseInt("-") == None
    ensures ParseInt("+") == None
    ensures ParseInt("12a") == None
    ensures ParseInt("2147483648") == None
  {
    assert !AllDigits("12a") by { assert !IsDigit("12a"[2]); }
    var big := "2147483648";
    assert DigitsValue(big) == 2147483648 by {
      assert big[..9] == "214748364";
      assert "214748364"[..8] == "21474836";
      assert "21474836"[..7] == "2147483";
      assert "2147483"[..6] == "214748";
      assert "214748"[..5] == "21474";
      assert "21474"[..4] == "2147";
      assert "2147"[..3] == "214";
      assert "214"[..2] == "21";
      assert "21"[..1] == "2";
      assert "2"[..0] == "";
    }
  }

  // ---------------------------------------------------------------------
  // QString::replace(p, "")

  /** `p` occurs in `s` starting at index `i`. */
  predicate OccursAt(s: string, p: string, i: nat) {
    i + |p| <= |s| && s[i..i + |p|] == p
  }

  predicate Occurs(s: string, p: string) {
    exists i: nat | i <= |s| :: OccursAt(s, p, i)
  }

  /**
   * Every non-overlapping occurrence of `p`, found from left to right, is
   * removed; the text between occurrences is kept in order.
   */
  function RemoveAll(s: string, p: string): (r: string)
    requires |p| > 0
    ensures |r| <= |s|
    decreases |s|
  {
    if |s| < |p| then s
    else if s[..|p|] == p then RemoveAll(s[|p|..], p)
    else [s[0]] + RemoveAll(s[1..], p)
  }

  /** A string in which `p` does not occur is left unchanged. */
  lemma {:induction false} RemoveAllAbsent(s: string, p: string)
    requires |p| > 0 && !Occurs(s, p)
    ensures RemoveAll(s, p) == s
    decreases |s|
  {
    if |s| >= |p| {
      assert !OccursAt(s, p, 0);
      assert s[..|p|] != p;
      forall i: nat | OccursAt(s[1..], p, i) ensures OccursAt(s, p, i + 1) {
        assert s[i + 1..i + 1 + |p|] == s[1..][i..i + |p|];
      }
      RemoveAllAbsent(s[1..], p);
    }
  }

  /** A string in which `p` occurs becomes strictly shorter. */
  lemma {:induction false} RemoveAllPresent(s: string, p: string)
    requires |p| > 0 && Occurs(s, p)
    ensures |RemoveAll(s, p)| < |s|
    decreases |s|
  {
    var i: nat :| i <= |s| && OccursAt(s, p, i);
    assert |s| >= |p|;
    if s[..|p|] != p {
      assert i > 0;
      var j: nat := i - 1;
      assert s[1..][j..j + |p|] == s[i..i + |p|];
      assert OccursAt(s[1..], p, j);
      RemoveAllPresent(s[1..], p);
    }
  }

  /** RemoveAll leaves its input unchanged exactly when the pattern does not occur in it. */
  lemma RemoveAllUnchangedIff(s: string, p: string)
    requires |p| > 0
    ensures RemoveAll(s, p) == s <==> !Occurs(s, p)
  {
    if Occurs(s, p) {
      RemoveAllPresent(s, p);
    } else {
      RemoveAllAbsent(s, p);
    }
  }

  /**
   * RemoveAll keeps the text before the leftmost occurrence of `p`, drops
   * that occurrence, and goes on with the rest: with RemoveAllAbsent this
   * fixes the result of a left-to-right, non-overlapping removal.
   */
  lemma RemoveAllLeftmost(s: string, p: string, i: nat)
    requires |p| > 0 && OccursAt(s, p, i)
    requires forall j: nat :: j < i ==> !OccursAt(s, p, j)
    ensures RemoveAll(s, p) == s[..i] + RemoveAll(s[i + |p|..], p)
  {
    var a, b := s[..i], s[i..];
    assert s == a + b;
    RemoveAllSkips(a, b, p);
    assert b[..|p|] == p && b[|p|..] == s[i + |p|..];
    RemoveAllDropsHead(b, p);
  }

  /** No occurrence starts inside `a`: RemoveAll copies `a` and carries on with `b`. */
  lemma {:induction false} RemoveAllSkips(a: string, b: string, p: string)
    requires |p| > 0
    requires forall j: nat :: j < |a| ==> !OccursAt(a + b, p, j)
    ensures RemoveAll(a + b, p) == a + RemoveAll(b, p)
    decreases |a|
  {
    if a == [] {
      assert a + b == b;
    } else {
      NoOccurrenceShifted(a, b, p);
      RemoveAllSkips(a[1..], b, p);
      SkipStep(a, b, p);
    }
  }

  /** Dropping the first character of `a` keeps `a` free of occurrence starts. */
  lemma NoOccurrenceShifted(a: string, b: string, p: string)
    requires |a| > 0
    requires forall j: nat :: j < |a| ==> !OccursAt(a + b, p, j)
    ensures !OccursAt(a + b, p, 0)
    ensures forall j: nat :: j < |a| - 1 ==> !OccursAt(a[1..] + b, p, j)
  {
    var s := a + b;
    assert s[1..] == a[1..] + b;
    forall j: nat | j < |a| - 1 ensures !OccursAt(a[1..] + b, p, j) {
      assert !OccursAt(s, p, j + 1);
      if j + |p| <= |s[1..]| {
        assert s[1..][j..j + |p|] == s[j + 1..j + 1 + |p|];
      }
    }
  }

  /** One step of RemoveAllSkips: the head of `a` is copied. */
  lemma SkipStep(a: string, b: string, p: string)
    requires |p| > 0 && |a| > 0 && !OccursAt(a + b, p, 0)
    requires RemoveAll(a[1..] + b, p) == a[1..] + RemoveAll(b, p)
    ensures RemoveAll(a + b, p) == a + RemoveAll(b, p)
  {
    var s := a + b;
    assert s[1..] == a[1..] + b;
    assert s[0] == a[0];
    if |s| >= |p| {
      RemoveAllKeepsHead(s, p);
    }
    assert a == [a[0]] + a[1..];
  }

  /** RemoveAll keeps a first character that does not start an occurrence. */
  lemma RemoveAllKeepsHead(s: string, p: string)
    requires 0 < |p| <= |s| && s[..|p|] != p
    ensures RemoveAll(s, p) == [s[0]] + RemoveAll(s[1..], p)
  {
  }

  /** RemoveAll drops an occurrence at the front. */
  lemma RemoveAllDropsHead(s: string, p: string)
    requires 0 < |p| <= |s| && s[..|p|] == p
    ensures RemoveAll(s, p) == RemoveAll(s[|p|..], p)
  {
  }

  /**
   * Removing "/localhost" once can leave a "/localhost" behind: the pieces
   * around a removed occurrence join up into a new one.
   */
  lemma LocalhostSurvivesRemoval(a: string, p: string, b: string)
    requires a == "/lo" && p == "/localhost" && b == "calhost"
    ensures RemoveAll(a + p + b, p) == a + b == p
  {
    var s := a + p + b;
    assert (p + b)[..|p|] == p && (p + b)[|p|..] == b;
    RemoveAllDropsHead(p + b, p);
    assert RemoveAll(p + b, p) == b;
    var s1, s2 := s[1..], s[2..];
    assert s2 == [a[2]] + p + b;
    assert s2[..|p|][0] != p[0] && s2[1..] == p + b;
    RemoveAllKeepsHead(s2, p);
    assert s1 == [a[1]] + s2;
    assert s1[..|p|][0] != p[0] && s1[1..] == s2;
    RemoveAllKeepsHead(s1, p);
    assert s[..|p|][3] != p[3] && s[1..] == s1;
    RemoveAllKeepsHead(s, p);
    assert RemoveAll(s, p) == [a[0], a[1], a[2]] + b;
    assert a == [a[0], a[1], a[2]];
  }
}
