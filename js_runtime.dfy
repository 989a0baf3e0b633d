/** The JavaScript built-ins the application leans on, stated exactly over
    Dafny's unbounded integers and exact reals: Math.floor/ceil/round,
    Math.max/min over lists, Array.prototype.reduce sums, String.prototype.split,
    padStart(2, '0'), integer-to-string conversion and Number() of a
    decimal digit string. */
module JsRuntime {
  import opened Wrappers

  // ---------------------------------------------------------------------------
  // Math.floor, Math.ceil, Math.round

  /** Math.floor. */
  function Floor(x: real): (r: int)
    ensures r as real <= x < r as real + 1.0
  {
    x.Floor
  }

  /** Math.ceil: the least integer not below x. */
  function Ceil(x: real): (r: int)
    ensures x <= r as real < x + 1.0
  {
    if x.Floor as real == x then x.Floor else x.Floor + 1
  }

  /** Math.round: the nearest integer, halves going toward +infinity. */
  function Round(x: real): (r: int)
    ensures x - 0.5 < r as real <= x + 0.5
  {
    (x + 0.5).Floor
  }

  lemma {:induction false} CeilOfInt(n: int)
    ensures Ceil(n as real) == n
  {
  }

  lemma {:induction false} CeilMonotone(x: real, y: real)
    requires x <= y
    ensures Ceil(x) <= Ceil(y)
  {
  }

  /** The % operator of JavaScript on integers with a positive divisor: it
      agrees with the Euclidean remainder on non-negative dividends and
      takes the sign of the dividend otherwise. */
  function JsRemainder(a: int, b: int): (r: int)
    requires b > 0
    ensures a >= 0 ==> r == a % b
    ensures a < 0 ==> -b < r <= 0 && r == -((-a) % b)
  {
    if a >= 0 then a % b else -((-a) % b)
  }

  /** Math.max and Math.min of two numbers. */
  function Max2(a: real, b: real): (r: real)
    ensures r >= a && r >= b && (r == a || r == b)
  {
    if a >= b then a else b
  }

  function Min2(a: real, b: real): (r: real)
    ensures r <= a && r <= b && (r == a || r == b)
  {
    if a <= b then a else b
  }

  // ---------------------------------------------------------------------------
  // Facts of exact real division that the proofs use

  lemma {:induction false} DivPos(x: real, y: real)
    requires x > 0.0 && y > 0.0
    ensures x / y > 0.0
  {
  }

  lemma {:induction false} MulPos(x: real, y: real)
    requires x > 0.0 && y > 0.0
    ensures x * y > 0.0
  {
  }

  /** Scaling a non-negative amount by a fraction in [0, 1] keeps it
      between 0 and the amount. */
  lemma {:induction false} ScaleByFraction(x: real, f: real)
    requires x >= 0.0 && 0.0 <= f <= 1.0
    ensures 0.0 <= x * f <= x
  {
    assert x - x * f == x * (1.0 - f);
    if x > 0.0 && f < 1.0 {
      MulPos(x, 1.0 - f);
    }
  }

  lemma {:induction false} DivAdd(a: real, b: real, y: real)
    requires y != 0.0
    ensures a / y + b / y == (a + b) / y
  {
  }

  lemma {:induction false} MulDivCancel(x: real, n: real)
    requires n != 0.0
    ensures n * x / n == x
  {
  }

  lemma {:induction false} MulMonotone(x: real, a: real, b: real)
    requires x >= 0.0 && a <= b
    ensures x * a <= x * b
  {
    assert x * b - x * a == x * (b - a);
    if x > 0.0 && a < b {
      MulPos(x, b - a);
    }
  }

  /** Equal factors give equal products (kept apart so that a proof need
      not multiply an equation out). */
  lemma {:induction false} SameProduct(x: real, y: real, z: real)
    requires x == y
    ensures x * z == y * z && z * x == z * y
  {
  }

  lemma {:induction false} CancelFactor(x: real, y: real, f: real)
    requires f != 0.0 && x * f == y * f
    ensures x == y
  {
    MulDivCancel(x, f);
    MulDivCancel(y, f);
    assert f * x == f * y;
  }

  lemma {:induction false} QuotientOf(a: real, b: real, c: real)
    requires b != 0.0 && c * b == a
    ensures a / b == c
  {
  }

  lemma {:induction false} PositiveFactor(x: real, y: real)
    requires y > 0.0 && x * y > 0.0
    ensures x > 0.0
  {
    assert x == (x * y) / y;
    DivPos(x * y, y);
  }

  lemma {:induction false} DivMonotone(x: real, y: real, n: real)
    requires x <= y && n > 0.0
    ensures x / n <= y / n
  {
    if x < y {
      DivPos(y - x, n);
      DivAdd(x, y - x, n);
    }
  }

  /** A positive part of a larger positive whole is a fraction strictly between 0 and 1. */
  lemma {:induction false} BelowOne(t: real, s: real)
    requires 0.0 < t < s
    ensures 0.0 < t / s < 1.0
  {
    DivPos(t, s);
    DivPos(s - t, s);
    DivAdd(t, s - t, s);
    assert s / s == 1.0;
  }

  // ---------------------------------------------------------------------------
  // The `||` fallback

  /** `value || fallback` for an optional number: an absent value and the
      value 0 are both falsy, so both fall back. */
  function OrElse(value: Option<real>, fallback: real): (r: real)
    ensures value.Some? && value.value != 0.0 ==> r == value.value
    ensures value.None? || value.value == 0.0 ==> r == fallback
  {
    if value.Some? && value.value != 0.0 then value.value else fallback
  }

  // ---------------------------------------------------------------------------
  // reduce((a, b) => a + b, 0) and Math.max(...xs) over lists

  function Sum(s: seq<real>): real
  {
    if s == [] then 0.0 else Sum(s[..|s| - 1]) + s[|s| - 1]
  }

  function SumInt(s: seq<int>): int
  {
    if s == [] then 0 else SumInt(s[..|s| - 1]) + s[|s| - 1]
  }

  lemma {:induction false} SumIntAppend(s: seq<int>, t: seq<int>)
    ensures SumInt(s + t) == SumInt(s) + SumInt(t)
    decreases |t|
  {
    if t == [] {
      assert s + t == s;
    } else {
      assert (s + t)[..|s + t| - 1] == s + t[..|t| - 1];
      SumIntAppend(s, t[..|t| - 1]);
    }
  }

  /** A sum of values that all lie in [lo, hi] lies in [|s|·lo, |s|·hi]. */
  lemma {:induction false} SumBounds(s: seq<real>, lo: real, hi: real)
    requires forall i :: 0 <= i < |s| ==> lo <= s[i] <= hi
    ensures |s| as real * lo <= Sum(s) <= |s| as real * hi
  {
    if s != [] {
      SumBounds(s[..|s| - 1], lo, hi);
    }
  }

  /** The mean of values that all lie in [lo, hi] lies in [lo, hi]. */
  lemma {:induction false} MeanBounds(s: seq<real>, lo: real, hi: real)
    requires |s| > 0 && forall i :: 0 <= i < |s| ==> lo <= s[i] <= hi
    ensures lo <= Sum(s) / |s| as real <= hi
  {
    SumBounds(s, lo, hi);
    var n := |s| as real;
    DivMonotone(n * lo, Sum(s), n);
    DivMonotone(Sum(s), n * hi, n);
    MulDivCancel(lo, n);
    MulDivCancel(hi, n);
  }

  /** Math.max(...s) of a non-empty list. */
  function MaxOf(s: seq<real>): (m: real)
    requires |s| > 0
    ensures m in s
    ensures forall i :: 0 <= i < |s| ==> s[i] <= m
  {
    if |s| == 1 then s[0] else Max2(MaxOf(s[..|s| - 1]), s[|s| - 1])
  }

  /** Math.min(...s) of a non-empty list. */
  function MinOf(s: seq<real>): (m: real)
    requires |s| > 0
    ensures m in s
    ensures forall i :: 0 <= i < |s| ==> m <= s[i]
  {
    if |s| == 1 then s[0] else Min2(MinOf(s[..|s| - 1]), s[|s| - 1])
  }

  /** Math.max(...s) of a non-empty list of integers. */
  function MaxInt(s: seq<int>): (m: int)
    requires |s| > 0
    ensures m in s
    ensures forall i :: 0 <= i < |s| ==> s[i] <= m
  {
    if |s| == 1 then s[0]
    else
      var m := MaxInt(s[..|s| - 1]);
      if m >= s[|s| - 1] then m else s[|s| - 1]
  }

  /** s.filter(keep).length */
  function CountWhere<T>(s: seq<T>, keep: T -> bool): (n: nat)
    ensures n <= |s|
    ensures n == 0 <==> forall i :: 0 <= i < |s| ==> !keep(s[i])
  {
    if s == [] then 0
    else CountWhere(s[..|s| - 1], keep) + (if keep(s[|s| - 1]) then 1 else 0)
  }

  // ---------------------------------------------------------------------------
  // Appending to lists and strings

  /** Appending nothing changes nothing. */
  lemma {:induction false} AppendNothing<T>(s: seq<T>)
    ensures s + [] == s
  {
  }

  /** Appending two pieces one by one appends their concatenation. */
  lemma {:induction false} AppendAssoc<T>(s: seq<T>, a: seq<T>, b: seq<T>)
    ensures s + a + b == s + (a + b)
  {
  }

  /** What follows a prefix, and the prefix itself. */
  lemma {:induction false} SplitAppend<T>(a: seq<T>, b: seq<T>)
    ensures (a + b)[|a|..] == b && (a + b)[..|a|] == a
  {
  }

  // ---------------------------------------------------------------------------
  // Integers as decimal strings

  predicate IsDigit(c: char)
  {
    '0' <= c <= '9'
  }

  predicate AllDigits(s: string)
  {
    forall i :: 0 <= i < |s| ==> IsDigit(s[i])
  }

  function DigitChar(d: nat): (c: char)
    requires d < 10
    ensures IsDigit(c)
  {
    ('0' as int + d) as char
  }

  function DigitValue(c: char): (d: nat)
    requires IsDigit(c)
    ensures d < 10
  {
    (c as int - '0' as int) as nat
  }

  lemma {:induction false} DigitRoundTrip(d: nat)
    requires d < 10
    ensures DigitValue(DigitChar(d)) == d
  {
  }

  /** String(n) for a non-negative integer: shortest decimal, no leading zero. */
  function NatToString(n: nat): (s: string)
    ensures |s| >= 1 && AllDigits(s)
    ensures |s| > 1 ==> s[0] != '0'
    ensures n < 10 <==> |s| == 1
  {
    if n < 10 then [DigitChar(n)] else NatToString(n / 10) + [DigitChar(n % 10)]
  }

  /** String(i) for an integer: a minus sign before the digits of |i|. */
  function IntToString(i: int): (s: string)
    ensures |s| >= 1
  {
    if i < 0 then "-" + NatToString(-i) else NatToString(i)
  }

  /** String(i) is made of digits and at most a leading minus sign. */
  lemma {:induction false} IntToStringCharacters(i: int)
    ensures forall k :: 0 <= k < |IntToString(i)| ==> IsDigit(IntToString(i)[k]) || IntToString(i)[k] == '-'
  {
    if i < 0 {
      var digits := NatToString(-i);
      assert forall k :: 1 <= k < |IntToString(i)| ==> IntToString(i)[k] == digits[k - 1];
    }
  }

  /** s.padStart(2, '0'). */
  function PadStart2(s: string): (r: string)
    ensures |s| >= 2 ==> r == s
    ensures |s| < 2 ==> |r| == 2 && r[2 - |s|..] == s
  {
    if |s| >= 2 then s else if |s| == 1 then "0" + s else "00"
  }

  /** The value of a string of decimal digits; the empty string is 0, as
      JavaScript's Number("") is. */
  function DigitsValue(s: string): nat
    requires AllDigits(s)
  {
    if s == [] then 0 else DigitsValue(s[..|s| - 1]) * 10 + DigitValue(s[|s| - 1])
  }

  /** Number(s) for an optionally signed decimal digit string; None stands
      for NaN. A sign with no digits after it is NaN, the empty string is 0. */
  function ParseInteger(s: string): (r: Option<int>)
    ensures AllDigits(s) ==> r == Some(DigitsValue(s) as int)
    ensures |s| >= 2 && s[0] == '-' && AllDigits(s[1..]) ==> r == Some(-(DigitsValue(s[1..]) as int))
    ensures |s| >= 2 && s[0] == '+' && AllDigits(s[1..]) ==> r == Some(DigitsValue(s[1..]) as int)
    ensures r.None? <==> !AllDigits(s) && !(|s| >= 2 && (s[0] == '-' || s[0] == '+') && AllDigits(s[1..]))
  {
    if AllDigits(s) then Some(DigitsValue(s) as int)
    else if |s| >= 2 && (s[0] == '-' || s[0] == '+') && AllDigits(s[1..]) then
      if s[0] == '-' then Some(-(DigitsValue(s[1..]) as int)) else Some(DigitsValue(s[1..]) as int)
    else None
  }

  lemma {:induction false} NatToStringRoundTrip(n: nat)
    ensures DigitsValue(NatToString(n)) == n
  {
    if n >= 10 {
      var s := NatToString(n);
      assert s[..|s| - 1] == NatToString(n / 10);
      NatToStringRoundTrip(n / 10);
    }
  }

  /** Number(String(i)) == i for every integer. */
  lemma {:induction false} IntToStringRoundTrip(i: int)
    ensures ParseInteger(IntToString(i)) == Some(i)
  {
    if i < 0 {
      var digits := NatToString(-i);
      var s := "-" + digits;
      assert s[0] == '-' && s[1..] == digits;
      assert !AllDigits(s) by {
        assert !IsDigit(s[0]);
      }
      NatToStringRoundTrip(-i);
      assert ParseInteger(s) == Some(-(DigitsValue(digits) as int));
    } else {
      NatToStringRoundTrip(i);
    }
  }

  /** A leading '0' does not change the value of a digit string. */
  lemma {:induction false} LeadingZero(s: string)
    requires AllDigits(s)
    ensures AllDigits("0" + s) && DigitsValue("0" + s) == DigitsValue(s)
    decreases |s|
  {
    var z := "0" + s;
    assert AllDigits(z);
    if s != [] {
      assert z[..|z| - 1] == "0" + s[..|s| - 1];
      LeadingZero(s[..|s| - 1]);
    }
  }

  /** Padding a digit string to two characters keeps its value. */
  lemma {:induction false} PadStart2Value(s: string)
    requires AllDigits(s)
    ensures AllDigits(PadStart2(s)) && DigitsValue(PadStart2(s)) == DigitsValue(s)
  {
    if |s| == 1 {
      LeadingZero(s);
    } else if |s| == 0 {
      LeadingZero(s);
      LeadingZero("0" + s);
    }
  }

  /** The value of a two-digit string, digit by digit. */
  lemma {:induction false} TwoDigitsValue(s: string)
    requires |s| == 2 && AllDigits(s)
    ensures DigitsValue(s) == 10 * DigitValue(s[0]) + DigitValue(s[1])
  {
    var p := s[..1];
    assert s[..|s| - 1] == p && p[..|p| - 1] == [] && p[0] == s[0];
    assert DigitsValue(p) == DigitValue(s[0]);
  }

  lemma {:induction false} DigitCharOfValue(c: char)
    requires IsDigit(c)
    ensures DigitChar(DigitValue(c)) == c
  {
  }

  lemma {:induction false} DivModTen(a: nat, b: nat)
    requires b < 10
    ensures (10 * a + b) / 10 == a && (10 * a + b) % 10 == b
  {
  }

  /** Every two-digit string is the padded decimal form of its own value. */
  lemma {:induction false} PadStart2OfTwoDigits(s: string)
    requires |s| == 2 && AllDigits(s)
    ensures PadStart2(NatToString(DigitsValue(s))) == s
  {
    TwoDigitsValue(s);
    var a, b := DigitValue(s[0]), DigitValue(s[1]);
    DigitCharOfValue(s[0]);
    DigitCharOfValue(s[1]);
    var n := DigitsValue(s);
    assert s == [DigitChar(a), DigitChar(b)];
    if a == 0 {
      assert n == b;
      assert NatToString(n) == [DigitChar(b)];
      assert PadStart2(NatToString(n)) == "0" + [DigitChar(b)];
    } else {
      DivModTen(a, b);
      assert NatToString(n) == NatToString(a) + [DigitChar(b)];
      assert NatToString(a) == [DigitChar(a)];
    }
  }

  // ---------------------------------------------------------------------------
  // String.prototype.split with a one-character separator

  /** s.split(sep): the pieces between separators, always at least one. */
  function Split(s: string, sep: char): (r: seq<string>)
    ensures |r| >= 1
    ensures forall k :: 0 <= k < |r| ==> sep !in r[k]
  {
    if s == [] then [""]
    else
      var rest := Split(s[1..], sep);
      if s[0] == sep then [""] + rest else [[s[0]] + rest[0]] + rest[1..]
  }

  /** Splitting a string with no separator in it gives the string itself. */
  lemma {:induction false} SplitNoSeparator(s: string, sep: char)
    requires sep !in s
    ensures Split(s, sep) == [s]
  {
    if s != [] {
      SplitNoSeparator(s[1..], sep);
      assert [s[0]] + s[1..] == s;
    }
  }

  /** The first separator ends the first piece. */
  lemma {:induction false} SplitAtSeparator(a: string, sep: char, b: string)
    requires sep !in a
    ensures Split(a + [sep] + b, sep) == [a] + Split(b, sep)
  {
    if a == [] {
      assert (a + [sep] + b)[1..] == b;
    } else {
      var s := a + [sep] + b;
      assert s[0] == a[0] && s[1..] == a[1..] + [sep] + b;
      SplitAtSeparator(a[1..], sep, b);
      var rest := Split(s[1..], sep);
      assert rest[0] == a[1..] && rest[1..] == Split(b, sep);
      assert [a[0]] + a[1..] == a;
    }
  }

  /** fields.join(sep) for a one-character separator. */
  function Join(fields: seq<string>, sep: char): string
  {
    if fields == [] then ""
    else if |fields| == 1 then fields[0]
    else fields[0] + [sep] + Join(fields[1..], sep)
  }

  /** Splitting joined fields that hold no separator gives the fields back. */
  lemma {:induction false} SplitJoin(fields: seq<string>, sep: char)
    requires |fields| >= 1
    requires forall k :: 0 <= k < |fields| ==> sep !in fields[k]
    ensures Split(Join(fields, sep), sep) == fields
    decreases |fields|
  {
    if |fields| == 1 {
      SplitNoSeparator(fields[0], sep);
    } else {
      SplitJoin(fields[1..], sep);
      SplitAtSeparator(fields[0], sep, Join(fields[1..], sep));
      assert fields == [fields[0]] + fields[1..];
    }
  }
}
