/**
 * Decimal text of integers as JavaScript writes it: `String(n)` (no sign for
 * non-negative numbers, no leading zeros) and `String.prototype.padStart` with
 * a one-character fill; and the value of a run of digits, as a date parser
 * reads it back.
 */
module Decimal {

  predicate IsDigit(c: char) {
    '0' <= c <= '9'
  }

  predicate IsDigits(s: string) {
    forall i :: 0 <= i < |s| ==> IsDigit(s[i])
  }

  function DigitChar(d: nat): (c: char)
    requires d < 10
    ensures IsDigit(c)
  {
    ('0' as int + d) as char
  }

  function DigitValue(c: char): (d: nat)
    requires IsDigit(c)
    ensures d < 10 && DigitChar(d) == c
  {
    c as int - '0' as int
  }

  /** The number a run of decimal digits denotes, most significant digit first. */
  function Value(s: string): nat
    requires IsDigits(s)
  {
    if s == [] then 0 else Value(s[..|s| - 1]) * 10 + DigitValue(s[|s| - 1])
  }

  /** `String(n)` for a non-negative integer `n`. */
  function Show(n: nat): (s: string)
    ensures IsDigits(s) && 1 <= |s|
    ensures s[0] == '0' ==> n == 0
    decreases n
  {
    (if n < 10 then "" else Show(n / 10)) + [DigitChar(n % 10)]
  }

  /** `String(i)` for any integer `i`: a minus sign before the digits of `-i`. */
  function ShowInt(i: int): (s: string)
    ensures 1 <= |s|
    ensures i >= 0 ==> s == Show(i)
  {
    if i < 0 then "-" + Show(-i) else Show(i)
  }

  /** Reading back what `Show` writes gives the number again. */
  lemma {:induction false} ValueOfShow(n: nat)
    ensures Value(Show(n)) == n
    decreases n
  {
    var s := Show(n);
    var prefix := if n < 10 then "" else Show(n / 10);
    assert s == prefix + [DigitChar(n % 10)];
    assert s[..|s| - 1] == prefix;
    if n >= 10 {
      ValueOfShow(n / 10);
    }
  }

  function Pow10(k: nat): (p: nat)
    ensures p >= 1
  {
    if k == 0 then 1 else 10 * Pow10(k - 1)
  }

  /** `String(n)` has exactly `k` digits when `n` is a `k`-digit number. */
  lemma {:induction false} ShowLength(n: nat, k: nat)
    requires 1 <= k && n < Pow10(k)
    requires k > 1 ==> Pow10(k - 1) <= n
    ensures |Show(n)| == k
    decreases k
  {
    if k > 1 {
      assert Pow10(k) == 10 * Pow10(k - 1);
      assert n >= 10 by {
        assert Pow10(k - 1) == (if k - 1 == 0 then 1 else 10 * Pow10(k - 2));
      }
      assert n / 10 < Pow10(k - 1);
      if k > 2 {
        assert Pow10(k - 1) == 10 * Pow10(k - 2);
      }
      ShowLength(n / 10, k - 1);
    }
  }

  /** `s.padStart(width, fill)` for a one-character `fill`. */
  function PadStart(s: string, width: nat, fill: char): (r: string)
    ensures |r| == if |s| >= width then |s| else width
    ensures r[|r| - |s|..] == s
    ensures forall i :: 0 <= i < |r| - |s| ==> r[i] == fill
    decreases width - |s|
  {
    if |s| >= width then s else PadStart([fill] + s, width, fill)
  }

  /** `String(n).padStart(2, "0")`, as used for days, months and minutes. */
  function Pad2(n: nat): string {
    PadStart(Show(n), 2, '0')
  }

  /** A leading zero does not change the number a run of digits denotes. */
  lemma {:induction false} LeadingZero(s: string)
    requires IsDigits(s)
    ensures IsDigits("0" + s) && Value("0" + s) == Value(s)
    decreases |s|
  {
    var t := "0" + s;
    if s != [] {
      assert t[..|t| - 1] == "0" + s[..|s| - 1];
      LeadingZero(s[..|s| - 1]);
    }
  }

  /** A two-digit field holds exactly two digits that read back as `n`. */
  lemma Pad2Reads(n: nat)
    requires n < 100
    ensures |Pad2(n)| == 2 && IsDigits(Pad2(n)) && Value(Pad2(n)) == n
  {
    var s := Show(n);
    ValueOfShow(n);
    if n < 10 {
      ShowLength(n, 1);
      assert Pad2(n) == "0" + s;
      LeadingZero(s);
    } else {
      ShowLength(n, 2);
      assert Pad2(n) == s;
    }
  }

  /** A digit run with no leading zero is what `String` writes for its value. */
  lemma {:induction false} ShowOfValue(s: string)
    requires IsDigits(s) && s != []
    requires s[0] == '0' ==> |s| == 1
    ensures Show(Value(s)) == s
    decreases |s|
  {
    var n := |s| - 1;
    var prefix, d := s[..n], DigitValue(s[n]);
    assert Value(s) == Value(prefix) * 10 + d;
    if prefix != [] {
      ShowOfValue(prefix);
      assert Value(prefix) != 0 by {
        assert prefix[0] == s[0] && s[0] != '0';
      }
      assert Value(s) / 10 == Value(prefix) && Value(s) % 10 == d;
      assert s == prefix + [s[n]];
    } else {
      assert s == [s[n]];
    }
  }

  /** Two digits are what `Pad2` writes for the number they denote. */
  lemma Pad2OfValue(s: string)
    requires |s| == 2 && IsDigits(s)
    ensures Pad2(Value(s)) == s
  {
    var last := s[1..];
    if s[0] == '0' {
      assert s == "0" + last;
      LeadingZero(last);
      ShowOfValue(last);
      assert PadStart(last, 2, '0') == PadStart("0" + last, 2, '0');
    } else {
      ShowOfValue(s);
    }
  }
}
