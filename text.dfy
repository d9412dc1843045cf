/** The few string operations the core relies on: ASCII lower-casing,
    substring and prefix tests, and decimal formatting of integers. */
module Text {

  /** Python's `str.lower()` restricted to ASCII letters. */
  function LowerChar(c: char): char {
    if 'A' <= c <= 'Z' then (c as int + 32) as char else c
  }

  function Lower(s: string): (r: string)
    ensures |r| == |s|
    ensures forall i :: 0 <= i < |s| ==> r[i] == LowerChar(s[i])
  {
    if s == [] then [] else [LowerChar(s[0])] + Lower(s[1..])
  }

  /** Lower-casing a string without ASCII capitals changes nothing. */
  lemma LowerKeepsLowercase(s: string)
    requires forall i :: 0 <= i < |s| ==> !('A' <= s[i] <= 'Z')
    ensures Lower(s) == s
  {
    assert forall i :: 0 <= i < |s| ==> Lower(s)[i] == s[i];
  }

  /** Python's `needle in hay`, scanning the start positions left to right. */
  function Contains(hay: string, needle: string): (found: bool)
    ensures needle <= hay ==> found
    ensures found ==> |needle| <= |hay|
    decreases |hay|
  {
    if needle <= hay then true
    else if hay == [] then false
    else Contains(hay[1..], needle)
  }

  /** `needle` occurs in `hay` starting at index `i`. */
  predicate OccursAt(hay: string, needle: string, i: int) {
    0 <= i <= |hay| - |needle| && hay[i..i + |needle|] == needle
  }

  /** `Contains` holds exactly when `needle` occurs somewhere in `hay`. */
  lemma {:induction false} ContainsIffOccurs(hay: string, needle: string)
    ensures Contains(hay, needle) <==> exists i :: OccursAt(hay, needle, i)
    decreases |hay|
  {
    if needle <= hay {
      assert OccursAt(hay, needle, 0);
    } else if hay == [] {
    } else {
      ContainsIffOccurs(hay[1..], needle);
      if exists i :: OccursAt(hay, needle, i) {
        var i :| OccursAt(hay, needle, i);
        assert i != 0;
        assert OccursAt(hay[1..], needle, i - 1);
      }
      if exists j :: OccursAt(hay[1..], needle, j) {
        var j :| OccursAt(hay[1..], needle, j);
        assert hay[1..][j..j + |needle|] == hay[j + 1..j + 1 + |needle|];
        assert OccursAt(hay, needle, j + 1);
      }
    }
  }

  /** The character of a decimal digit: '0' through '9'. */
  function DigitChar(d: int): (c: char)
    requires 0 <= d < 10
    ensures '0' <= c <= '9'
  {
    ('0' as int + d) as char
  }

  /** The value of a decimal digit character. */
  function DigitValue(c: char): int {
    c as int - '0' as int
  }

  /** The number a string of decimal digits spells, most significant digit first
      (Python's `int(s)` on such a string). */
  function DigitsValue(s: string): int {
    if s == [] then 0 else 10 * DigitsValue(s[..|s| - 1]) + DigitValue(s[|s| - 1])
  }

  function Pow10(n: nat): (p: int)
    ensures p >= 1
  {
    if n == 0 then 1 else 10 * Pow10(n - 1)
  }

  /** Appending a digit shifts the value one place and adds the digit. */
  lemma DigitsValueAppend(s: string, c: char)
    ensures DigitsValue(s + [c]) == 10 * DigitsValue(s) + DigitValue(c)
  {
    assert (s + [c])[..|s + [c]| - 1] == s;
  }

  /** Division by ten is unique: a quotient and a digit that rebuild `n` are `n / 10` and `n % 10`. */
  lemma DivModTen(n: int, q: int, r: int)
    requires n == 10 * q + r && 0 <= r < 10
    ensures n / 10 == q && n % 10 == r
  {
  }

  /** Python's `str(n)` for an integer: decimal digits, a leading '-' when
      negative, and no leading zero. */
  function DecimalString(n: int): (r: string)
    ensures r != []
    ensures n >= 0 ==> forall i :: 0 <= i < |r| ==> '0' <= r[i] <= '9'
    ensures n < 0 ==> r[0] == '-' && forall i :: 1 <= i < |r| ==> '0' <= r[i] <= '9'
    ensures |r| > 1 && '0' <= r[0] <= '9' ==> r[0] != '0'
    decreases if n < 0 then -n + 1 else n
  {
    if n < 0 then "-" + DecimalString(-n)
    else if n < 10 then [DigitChar(n)]
    else DecimalString(n / 10) + [DigitChar(n % 10)]
  }

  /** Reading the digits of `str(n)` back gives `n`: `int(str(n)) == n`. */
  lemma {:induction false} DecimalStringReadsBack(n: int)
    ensures n >= 0 ==> DigitsValue(DecimalString(n)) == n
    ensures n < 0 ==> DigitsValue(DecimalString(n)[1..]) == -n
    decreases if n < 0 then -n + 1 else n
  {
    if n < 0 {
      var digits := DecimalString(-n);
      DecimalStringReadsBack(-n);
      assert DecimalString(n) == "-" + digits;
      assert ("-" + digits)[1..] == digits;
    } else if n >= 10 {
      var high, last := DecimalString(n / 10), DigitChar(n % 10);
      assert DecimalString(n) == high + [last];
      DecimalStringReadsBack(n / 10);
      DigitsValueAppend(high, last);
    }
  }

  /** The last `width` decimal digits of `n`, zero-padded (the `%02d`/`%04d`
      of an ISO date): the digits spell `n` modulo 10^width. */
  function Padded(n: nat, width: nat): (r: string)
    ensures |r| == width
    ensures forall i :: 0 <= i < width ==> '0' <= r[i] <= '9'
  {
    if width == 0 then [] else Padded(n / 10, width - 1) + [DigitChar(n % 10)]
  }

  /** A number below 10^width reads back from its padded digits. */
  lemma {:induction false} PaddedValue(n: nat, width: nat)
    requires n < Pow10(width)
    ensures DigitsValue(Padded(n, width)) == n
  {
    if width > 0 {
      var high, last := Padded(n / 10, width - 1), DigitChar(n % 10);
      assert Padded(n, width) == high + [last];
      PaddedValue(n / 10, width - 1);
      DigitsValueAppend(high, last);
    }
  }

  lemma {:induction false} DigitsValueNonNegative(s: string)
    requires forall i :: 0 <= i < |s| ==> '0' <= s[i] <= '9'
    ensures DigitsValue(s) >= 0
  {
    if s != [] {
      DigitsValueNonNegative(s[..|s| - 1]);
    }
  }

  /** The last digit of a digit string is its value modulo 10, the rest its value divided by 10. */
  lemma DigitsValueSplit(s: string)
    requires s != []
    requires forall i :: 0 <= i < |s| ==> '0' <= s[i] <= '9'
    ensures DigitsValue(s) / 10 == DigitsValue(s[..|s| - 1])
    ensures DigitsValue(s) % 10 == DigitValue(s[|s| - 1])
  {
    DigitsValueNonNegative(s[..|s| - 1]);
    DivModTen(DigitsValue(s), DigitsValue(s[..|s| - 1]), DigitValue(s[|s| - 1]));
  }

  /** Strings of digits of one width spell different numbers when they differ. */
  lemma {:induction false} DigitsValueInjective(s: string, t: string)
    requires |s| == |t|
    requires forall i :: 0 <= i < |s| ==> '0' <= s[i] <= '9' && '0' <= t[i] <= '9'
    requires DigitsValue(s) == DigitsValue(t)
    ensures s == t
  {
    if s != [] {
      var n := |s| - 1;
      DigitsValueSplit(s);
      DigitsValueSplit(t);
      var sHead, tHead := s[..n], t[..n];
      assert forall i :: 0 <= i < n ==> sHead[i] == s[i] && tHead[i] == t[i];
      DigitsValueInjective(sHead, tHead);
      assert DigitValue(s[n]) == DigitValue(t[n]);
      assert forall i :: 0 <= i < |s| ==> s[i] == t[i] by {
        forall i | 0 <= i < |s|
          ensures s[i] == t[i]
        {
          if i < n {
            assert sHead[i] == tHead[i];
          }
        }
      }
    }
  }
}
