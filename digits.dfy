/**
 * ASCII decimal digits: reading a digit string as Python's `int(...)` does,
 * and writing a number as `str(n)` and as `f"{n:02d}"` do.
 */
module Digits {

  predicate IsDigit(c: char) {
    '0' <= c <= '9'
  }

  predicate IsDigits(s: string) {
    forall i :: 0 <= i < |s| ==> IsDigit(s[i])
  }

  function DigitValue(c: char): (d: nat)
    requires IsDigit(c)
    ensures d < 10
  {
    c as int - '0' as int
  }

  function DigitChar(d: nat): (c: char)
    requires d < 10
    ensures IsDigit(c) && DigitValue(c) == d
  {
    (d + '0' as int) as char
  }

  lemma DigitCharOfValue(c: char)
    requires IsDigit(c)
    ensures DigitChar(DigitValue(c)) == c
  {
  }

  /** `int(s)` for a string of ASCII digits; leading zeros do not change the value. */
  function Value(s: string): nat
    requires IsDigits(s)
  {
    if s == [] then 0 else Value(s[..|s| - 1]) * 10 + DigitValue(s[|s| - 1])
  }

  /** `str(n)`: the decimal digits of `n`, with no leading zero unless `n` is zero. */
  function Decimal(n: nat): (r: string)
    ensures |r| >= 1 && IsDigits(r) && Value(r) == n
    ensures r[0] == '0' ==> r == "0"
  {
    if n < 10 then
      [DigitChar(n)]
    else
      var prefix := Decimal(n / 10);
      var r := prefix + [DigitChar(n % 10)];
      assert r[..|r| - 1] == prefix;
      r
  }

  /** `f"{n:02d}"` for `n < 100`: exactly two digits, zero-padded. */
  function Pad2(n: nat): (r: string)
    requires n < 100
    ensures |r| == 2 && IsDigits(r) && Value(r) == n
  {
    var r := [DigitChar(n / 10), DigitChar(n % 10)];
    assert r[..1][..0] == [] && r[..1][0] == r[0];
    assert Value(r[..1]) == n / 10;
    r
  }

  lemma ValueOfTwo(s: string)
    requires |s| == 2 && IsDigits(s)
    ensures Value(s) == DigitValue(s[0]) * 10 + DigitValue(s[1])
  {
    assert s[..1][..0] == [] && s[..1][0] == s[0];
    assert Value(s[..1]) == DigitValue(s[0]);
  }

  lemma ValueOfFour(s: string)
    requires |s| == 4 && IsDigits(s)
    ensures Value(s) == DigitValue(s[0]) * 1000 + DigitValue(s[1]) * 100 + DigitValue(s[2]) * 10 + DigitValue(s[3])
  {
    var s1, s2, s3 := s[..1], s[..2], s[..3];
    assert s1[..0] == [] && s2[..1] == s1 && s3[..2] == s2 && s[..3] == s3;
    assert Value(s1) == DigitValue(s[0]);
    assert Value(s2) == Value(s1) * 10 + DigitValue(s[1]);
    assert Value(s3) == Value(s2) * 10 + DigitValue(s[2]);
  }

  /** Reading two digits and padding them back to two gives the same two characters. */
  lemma Pad2OfDigits(s: string)
    requires |s| == 2 && IsDigits(s)
    ensures Value(s) < 100 && Pad2(Value(s)) == s
  {
    ValueOfTwo(s);
    DigitCharOfValue(s[0]);
    DigitCharOfValue(s[1]);
  }

  /** Different numbers have different decimal texts. */
  lemma DecimalInjective(i: nat, j: nat)
    ensures Decimal(i) == Decimal(j) ==> i == j
  {
  }

  /** `s` with its leading zeros removed. */
  function StripLeadingZeros(s: string): (r: string)
    ensures |r| <= |s| && r == s[|s| - |r|..]
    ensures r != [] ==> r[0] != '0'
    ensures forall i :: 0 <= i < |s| - |r| ==> s[i] == '0'
  {
    if s != [] && s[0] == '0' then StripLeadingZeros(s[1..]) else s
  }

  lemma {:induction false} ValueOfLeadingZero(s: string)
    requires IsDigits(s)
    ensures IsDigits(['0'] + s) && Value(['0'] + s) == Value(s)
  {
    var t := ['0'] + s;
    if s != [] {
      assert t[..|t| - 1] == ['0'] + s[..|s| - 1];
      ValueOfLeadingZero(s[..|s| - 1]);
    } else {
      assert t[..|t| - 1] == [];
    }
  }

  lemma {:induction false} ValueOfStripped(s: string)
    requires IsDigits(s)
    ensures IsDigits(StripLeadingZeros(s)) && Value(StripLeadingZeros(s)) == Value(s)
  {
    if s != [] && s[0] == '0' {
      ValueOfStripped(s[1..]);
      assert s == ['0'] + s[1..];
      ValueOfLeadingZero(s[1..]);
    }
  }

  lemma {:induction false} ValueAtLeastOne(s: string)
    requires IsDigits(s) && s != [] && s[0] != '0'
    ensures Value(s) >= 1
  {
    if |s| > 1 {
      ValueAtLeastOne(s[..|s| - 1]);
    }
  }

  /** Two digit strings without a leading zero and with the same value are equal. */
  lemma {:induction false} CanonicalUnique(a: string, b: string)
    requires IsDigits(a) && a != [] && a[0] != '0'
    requires IsDigits(b) && b != [] && b[0] != '0'
    requires Value(a) == Value(b)
    ensures a == b
  {
    var a', b' := a[..|a| - 1], b[..|b| - 1];
    assert DigitValue(a[|a| - 1]) == DigitValue(b[|b| - 1]);
    assert a[|a| - 1] == b[|b| - 1] by {
      DigitCharOfValue(a[|a| - 1]);
      DigitCharOfValue(b[|b| - 1]);
    }
    assert Value(a') == Value(b');
    if a' != [] && b' != [] {
      CanonicalUnique(a', b');
      assert a == a' + [a[|a| - 1]];
      assert b == b' + [b[|b| - 1]];
    } else if a' != [] {
      ValueAtLeastOne(a');
    } else if b' != [] {
      ValueAtLeastOne(b');
    }
  }

  /**
   * Reading a non-empty digit string and writing the number back out drops
   * exactly its leading zeros (all zeros become "0").
   */
  lemma DecimalOfDigits(s: string)
    requires IsDigits(s) && s != []
    ensures Decimal(Value(s)) == if StripLeadingZeros(s) == [] then "0" else StripLeadingZeros(s)
  {
    var u := StripLeadingZeros(s);
    ValueOfStripped(s);
    if u != [] {
      CanonicalUnique(Decimal(Value(s)), u);
    }
  }
}
