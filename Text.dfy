/** The few pieces of Python string formatting that the modelled code relies on:
    the `'%0<w>d'` conversion used for run file names (`'%05d'`) and for the
    quasiparticle description (`'%03d'`), and `str.split('.')[0]`. */
module Text {

  predicate IsDigit(c: char) { '0' <= c <= '9' }

  predicate AllDigits(s: string) { forall i :: 0 <= i < |s| ==> IsDigit(s[i]) }

  function DigitChar(d: nat): (c: char)
    requires d < 10
    ensures IsDigit(c) && (c as int) - ('0' as int) == d
  {
    ((('0' as int) + d) as char)
  }

  function DigitValue(c: char): nat
    requires IsDigit(c)
  {
    (c as int) - ('0' as int)
  }

  /** Decimal digits of `n` without leading zeros ("0" for zero). */
  function Digits(n: nat): (s: string)
    ensures 1 <= |s| && AllDigits(s)
    ensures n < 10 <==> |s| == 1
    decreases n
  {
    if n < 10 then [DigitChar(n)] else Digits(n / 10) + [DigitChar(n % 10)]
  }

  function Zeros(k: nat): (s: string)
    ensures |s| == k && AllDigits(s)
    ensures forall i :: 0 <= i < k ==> s[i] == '0'
  {
    if k == 0 then "" else "0" + Zeros(k - 1)
  }

  /** Pads `s` on the left with zeros up to `width` characters. */
  function PadZeros(s: string, width: nat): (r: string)
    ensures |r| == if |s| < width then width else |s|
    ensures AllDigits(s) ==> AllDigits(r)
  {
    if |s| < width then Zeros(width - |s|) + s else s
  }

  /** Python's `'%0<width>d' % n`: the width counts the minus sign. */
  function FormatInt(n: int, width: nat): (r: string)
    ensures 0 <= n ==> AllDigits(r)
    ensures n < 0 ==> |r| >= 2 && r[0] == '-' && AllDigits(r[1..])
    ensures |r| >= width
  {
    if n >= 0 then PadZeros(Digits(n), width)
    else "-" + PadZeros(Digits(-n), if width >= 1 then width - 1 else 0)
  }

  /** Reads a run of decimal digits (leading zeros allowed). */
  function ParseNat(s: string): nat
    requires AllDigits(s)
  {
    if s == [] then 0 else ParseNat(s[..|s| - 1]) * 10 + DigitValue(s[|s| - 1])
  }

  /** Reads an optional minus sign followed by decimal digits. */
  function ParseInt(s: string): int
    requires (|s| >= 1 && s[0] == '-' && AllDigits(s[1..])) || AllDigits(s)
  {
    if |s| >= 1 && s[0] == '-' then -(ParseNat(s[1..]) as int) else ParseNat(s)
  }

  lemma {:induction false} DigitsRoundTrip(n: nat)
    ensures ParseNat(Digits(n)) == n
    decreases n
  {
    var s := Digits(n);
    if n >= 10 {
      DigitsRoundTrip(n / 10);
      assert s[..|s| - 1] == Digits(n / 10);
    }
  }

  lemma {:induction false} LeadingZerosIgnored(k: nat, s: string)
    requires AllDigits(s)
    ensures ParseNat(Zeros(k) + s) == ParseNat(s)
    decreases |s|, k
  {
    if s == [] {
      assert Zeros(k) + s == Zeros(k);
      if k > 0 {
        assert Zeros(k)[..k - 1] == Zeros(k - 1);
        LeadingZerosIgnored(k - 1, s);
        assert Zeros(k - 1) + s == Zeros(k - 1);
      }
    } else {
      var t := Zeros(k) + s;
      assert t[..|t| - 1] == Zeros(k) + s[..|s| - 1];
      LeadingZerosIgnored(k, s[..|s| - 1]);
    }
  }

  /** Zero padding does not change the number the digits denote. */
  lemma PadZerosRoundTrip(m: nat, w: nat)
    ensures ParseNat(PadZeros(Digits(m), w)) == m
  {
    var d := Digits(m);
    DigitsRoundTrip(m);
    if |d| < w {
      LeadingZerosIgnored(w - |d|, d);
    }
  }

  /** Formatting an integer with `%0<w>d` and reading it back gives it back. */
  lemma FormatIntRoundTrip(n: int, width: nat)
    ensures ParseInt(FormatInt(n, width)) == n
  {
    if n < 0 {
      NegativeRoundTrip(n, width);
    } else {
      NonNegativeRoundTrip(n, width);
    }
  }

  lemma NonNegativeRoundTrip(n: nat, width: nat)
    ensures ParseInt(FormatInt(n, width)) == n
  {
    var r := PadZeros(Digits(n), width);
    assert FormatInt(n, width) == r;
    PadZerosRoundTrip(n, width);
    assert IsDigit(r[0]);
    assert ParseInt(r) == ParseNat(r);
  }

  lemma NegativeRoundTrip(n: int, width: nat)
    requires n < 0
    ensures ParseInt(FormatInt(n, width)) == n
  {
    var w := if width >= 1 then width - 1 else 0;
    var p := PadZeros(Digits(-n), w);
    assert FormatInt(n, width) == "-" + p;
    PadZerosRoundTrip(-n, w);
    ParseSigned(p);
  }

  lemma ParseSigned(p: string)
    requires AllDigits(p)
    ensures ParseInt("-" + p) == -(ParseNat(p) as int)
  {
    assert ("-" + p)[1..] == p;
  }

  /** Python's `s.split(c)[0]`: everything before the first `c`. */
  function BeforeFirst(s: string, c: char): (r: string)
    ensures |r| <= |s| && r == s[..|r|]
    ensures c !in r
    ensures |r| < |s| ==> s[|r|] == c
  {
    if s == [] then "" else if s[0] == c then "" else [s[0]] + BeforeFirst(s[1..], c)
  }

  lemma {:induction false} BeforeFirstOfJoin(a: string, c: char, b: string)
    requires c !in a
    ensures BeforeFirst(a + [c] + b, c) == a
    decreases |a|
  {
    if a != [] {
      assert (a + [c] + b)[1..] == a[1..] + [c] + b;
      BeforeFirstOfJoin(a[1..], c, b);
    }
  }
}
