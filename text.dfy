/** String helpers the components rely on: `startsWith`, the digit filter of the
    one-time-code inputs, `toUpperCase` on ASCII, and the decimal rendering and
    re-reading of integers done by `toString()` and `Number(...)`. */
module Text {
  import opened Wrappers
  import Lists

  /** `s.startsWith(prefix)`. */
  predicate StartsWith(s: string, prefix: string) {
    |prefix| <= |s| && s[..|prefix|] == prefix
  }

  /** Two prefixes of the same string are themselves prefix-related. */
  lemma PrefixesOfOneString(s: string, a: string, b: string)
    requires StartsWith(s, a) && StartsWith(s, b) && |a| <= |b|
    ensures StartsWith(b, a)
  {
    assert b[..|a|] == s[..|b|][..|a|] == s[..|a|];
  }

  predicate IsDigit(c: char) {
    '0' <= c <= '9'
  }

  predicate AllDigits(s: string) {
    forall i :: 0 <= i < |s| ==> IsDigit(s[i])
  }

  /** `s.replace(/[^0-9]/g, "")`: the digits of `s`, in order. */
  function DigitsOnly(s: string): (r: string)
    ensures AllDigits(r)
    ensures |r| <= |s|
  {
    if s == [] then []
    else (if IsDigit(s[0]) then [s[0]] else []) + DigitsOnly(s[1..])
  }

  /** The digit filter is the list filter with the digit test. */
  lemma {:induction false} DigitsOnlyIsFilter(s: string)
    ensures DigitsOnly(s) == Lists.Filter(s, IsDigit)
  {
    if s != [] {
      DigitsOnlyIsFilter(s[1..]);
    }
  }

  /** The filter keeps every digit of `s`, as often as it occurs and in its
      original order, and drops every other character. */
  lemma DigitsOnlyKeepsDigits(s: string)
    ensures Lists.Subsequence(DigitsOnly(s), s)
    ensures forall c :: multiset(DigitsOnly(s))[c] == if IsDigit(c) then multiset(s)[c] else 0
  {
    DigitsOnlyIsFilter(s);
    Lists.FilterSpec(s, IsDigit);
  }

  /** A string that is all digits passes the filter unchanged, and only such a string does. */
  lemma {:induction false} DigitsOnlyFixedPoint(s: string)
    ensures DigitsOnly(s) == s <==> AllDigits(s)
  {
    if s != [] {
      DigitsOnlyFixedPoint(s[1..]);
      if !IsDigit(s[0]) {
        // the filter drops a character, so the result is too short to be s
        assert |DigitsOnly(s)| == |DigitsOnly(s[1..])| < |s|;
      } else {
        assert AllDigits(s) <==> AllDigits(s[1..]) by {
          if AllDigits(s[1..]) {
            forall i | 0 <= i < |s| ensures IsDigit(s[i]) {
              if i > 0 { assert s[i] == s[1..][i - 1]; }
            }
          }
          if AllDigits(s) {
            forall i | 0 <= i < |s[1..]| ensures IsDigit(s[1..][i]) {
              assert s[1..][i] == s[i + 1];
            }
          }
        }
        assert DigitsOnly(s) == [s[0]] + DigitsOnly(s[1..]);
        if DigitsOnly(s[1..]) == s[1..] { assert [s[0]] + s[1..] == s; }
      }
    }
  }

  /** Filtering twice is the same as filtering once. */
  lemma DigitsOnlyIdempotent(s: string)
    ensures DigitsOnly(DigitsOnly(s)) == DigitsOnly(s)
  {
    DigitsOnlyFixedPoint(DigitsOnly(s));
  }

  /** A single-character string keeps its character exactly when it is a digit. */
  lemma DigitsOnlyOfOneChar(c: char)
    ensures DigitsOnly([c]) == if IsDigit(c) then [c] else []
  {
    assert [c][1..] == [];
  }

  /** The number of UTF-16 code units that encode `c`: two for a character
      outside the Basic Multilingual Plane, one otherwise. */
  function CodeUnits(c: char): (n: nat)
    ensures n == 1 || n == 2
    ensures n == 1 <==> (c as int) < 0x1_0000
  {
    if (c as int) < 0x1_0000 then 1 else 2
  }

  /** JavaScript's `s.length`, which counts UTF-16 code units, not characters. */
  function Utf16Length(s: string): (n: nat)
    ensures |s| <= n <= 2 * |s|
    ensures n == 0 <==> s == []
  {
    if s == [] then 0 else CodeUnits(s[0]) + Utf16Length(s[1..])
  }

  /** A string is one code unit long exactly when it is one character of the
      Basic Multilingual Plane. */
  lemma Utf16LengthOne(s: string)
    ensures Utf16Length(s) == 1 <==> |s| == 1 && (s[0] as int) < 0x1_0000
  {
    if |s| >= 1 { assert Utf16Length(s) == CodeUnits(s[0]) + Utf16Length(s[1..]); }
  }

  /** On characters of the Basic Multilingual Plane, such as digits, the two
      lengths agree. */
  lemma {:induction false} Utf16LengthOfBmp(s: string)
    requires forall i :: 0 <= i < |s| ==> (s[i] as int) < 0x1_0000
    ensures Utf16Length(s) == |s|
  {
    if s != [] {
      Utf16LengthOfBmp(s[1..]);
    }
  }

  /** ASCII part of `toUpperCase`. */
  function UpperChar(c: char): (u: char)
    ensures 'a' <= c <= 'z' ==> 'A' <= u <= 'Z'
    ensures !('a' <= c <= 'z') ==> u == c
  {
    if 'a' <= c <= 'z' then (c as int - 'a' as int + 'A' as int) as char else c
  }

  function ToUpper(s: string): (r: string)
    ensures |r| == |s|
    ensures forall i :: 0 <= i < |s| ==> r[i] == UpperChar(s[i])
  {
    if s == [] then [] else [UpperChar(s[0])] + ToUpper(s[1..])
  }

  function DigitChar(d: nat): (c: char)
    requires d < 10
    ensures IsDigit(c)
  {
    ('0' as int + d) as char
  }

  function DigitValue(c: char): (d: nat)
    requires IsDigit(c)
    ensures d < 10 && DigitChar(d) == c
  {
    c as int - '0' as int
  }

  /** `n.toString()` for a non-negative integer. */
  function NatToString(n: nat): (s: string)
    ensures |s| >= 1 && AllDigits(s)
  {
    if n < 10 then [DigitChar(n)] else NatToString(n / 10) + [DigitChar(n % 10)]
  }

  /** `i.toString()` for any integer. */
  function IntToString(i: int): (s: string)
    ensures |s| >= 1
  {
    if i < 0 then "-" + NatToString(-i) else NatToString(i)
  }

  /** The value of a string of decimal digits, most significant first (0 for ""). */
  function DecimalValue(s: string): nat
    requires AllDigits(s)
  {
    if s == [] then 0 else DecimalValue(s[..|s| - 1]) * 10 + DigitValue(s[|s| - 1])
  }

  /** `Number(s)` on the strings that spell an integer (an optional minus sign and
      at least one digit); `None` for every other string. */
  function ParseInt(s: string): (r: Option<int>)
    ensures r.Some? ==> s != ""
  {
    if s == [] then None
    else if s[0] == '-' then
      (if |s| > 1 && AllDigits(s[1..]) then Some(-(DecimalValue(s[1..]) as int)) else None)
    else if AllDigits(s) then Some(DecimalValue(s))
    else None
  }

  lemma {:induction false} DecimalValueOfNatToString(n: nat)
    ensures DecimalValue(NatToString(n)) == n
  {
    var s := NatToString(n);
    if n >= 10 {
      DecimalValueOfNatToString(n / 10);
      assert s[..|s| - 1] == NatToString(n / 10);
    }
  }

  /** Printing an integer and reading it back gives the same integer. */
  lemma ParseIntOfIntToString(i: int)
    ensures ParseInt(IntToString(i)) == Some(i)
  {
    if i < 0 {
      NegativeIntToString(i);
    } else {
      DecimalValueOfNatToString(i);
    }
  }

  /** The negative case: a minus sign followed by the digits of the magnitude. */
  lemma NegativeIntToString(i: int)
    requires i < 0
    ensures ParseInt(IntToString(i)) == Some(i)
  {
    var n: nat := -i;
    DecimalValueOfNatToString(n);
    ParseIntOfMinus(NatToString(n));
  }

  /** A minus sign followed by digits reads as the negated value of the digits. */
  lemma ParseIntOfMinus(d: string)
    requires |d| >= 1 && AllDigits(d)
    ensures ParseInt("-" + d) == Some(-(DecimalValue(d) as int))
  {
    var s := "-" + d;
    assert s[0] == '-' && s[1..] == d;
  }
}
