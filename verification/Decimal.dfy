/** str(n), str.zfill and reading digits back. */
module Decimal {
  predicate IsDigit(c: char) {
    '0' <= c <= '9'
  }

  predicate AllDigits(s: string) {
    forall i :: 0 <= i < |s| ==> IsDigit(s[i])
  }

  function DigitOf(d: int): (c: char)
    requires 0 <= d < 10
    ensures IsDigit(c) && c as int - '0' as int == d
  {
    ('0' as int + d) as char
  }

  /** str(n) for n >= 0 */
  function Digits(n: nat): (s: string)
    ensures s != [] && AllDigits(s)
  {
    if n < 10 then [DigitOf(n)] else Digits(n / 10) + [DigitOf(n % 10)]
  }

  function ValueOf(s: string): nat
    requires AllDigits(s)
  {
    if s == [] then 0 else 10 * ValueOf(s[..|s| - 1]) + (s[|s| - 1] as int - '0' as int)
  }

  function Pow10(d: nat): (p: nat)
    ensures p > 0
  {
    if d == 0 then 1 else 10 * Pow10(d - 1)
  }

  /** str(n).zfill(width) */
  function Padded(n: nat, width: nat): (s: string)
    ensures |s| >= width && s != [] && AllDigits(s)
  {
    var s := Digits(n);
    if |s| >= width then s else Zeros(width - |s|) + s
  }

  function Zeros(n: nat): (s: string)
    ensures |s| == n && AllDigits(s)
    ensures forall i :: 0 <= i < n ==> s[i] == '0'
  {
    seq(n, i => '0')
  }

  lemma {:induction false} ReadsDigits(n: nat)
    ensures ValueOf(Digits(n)) == n
  {
    if n >= 10 {
      ReadsDigits(n / 10);
      assert Digits(n)[..|Digits(n)| - 1] == Digits(n / 10);
    }
  }

  lemma {:induction false} LeadingZeros(k: nat, s: string)
    requires AllDigits(s)
    ensures AllDigits(Zeros(k) + s) && ValueOf(Zeros(k) + s) == ValueOf(s)
    decreases |s|, k
  {
    var t := Zeros(k) + s;
    if s != [] {
      assert t[..|t| - 1] == Zeros(k) + s[..|s| - 1];
      LeadingZeros(k, s[..|s| - 1]);
    } else if k > 0 {
      assert t[..|t| - 1] == Zeros(k - 1) + s;
      LeadingZeros(k - 1, s);
    }
  }

  lemma {:induction false} DigitCount(n: nat, d: nat)
    requires d >= 1
    ensures |Digits(n)| <= d <==> n < Pow10(d)
  {
    if d == 1 {
      assert Pow10(1) == 10;
    } else if n >= 10 {
      DigitCount(n / 10, d - 1);
    } else {
      assert Pow10(d) >= 10 by { assert Pow10(d) == 10 * Pow10(d - 1); }
    }
  }

  /** A number below 10^width is written with exactly `width` digits that read back to it. */
  lemma PaddedReads(n: nat, width: nat)
    requires width >= 1
    ensures ValueOf(Padded(n, width)) == n
    ensures n < Pow10(width) ==> |Padded(n, width)| == width
  {
    ReadsDigits(n);
    DigitCount(n, width);
    LeadingZeros(if |Digits(n)| >= width then 0 else width - |Digits(n)|, Digits(n));
  }

  /** Digits are the padded text of their value. */
  lemma {:induction false} PaddedValue(s: string)
    requires s != [] && AllDigits(s)
    ensures Padded(ValueOf(s), |s|) == s
  {
    var g, d := s[..|s| - 1], s[|s| - 1] as int - '0' as int;
    assert s == g + [DigitOf(d)];
    if g != [] {
      PaddedValue(g);
      assert ValueOf(g) > 0 ==> Digits(ValueOf(s)) == Digits(ValueOf(g)) + [DigitOf(d)];
      assert ValueOf(g) == 0 ==> g == Zeros(|g|);
    }
  }
}
