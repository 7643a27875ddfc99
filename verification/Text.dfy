/** Decimal numbers, joins and small facts about strings that several modules share. */
module Text {

  predicate IsDigit(c: char) {
    '0' <= c <= '9'
  }

  predicate AllDigits(s: string) {
    forall i :: 0 <= i < |s| ==> IsDigit(s[i])
  }

  function Digit(d: nat): (c: char)
    requires d < 10
    ensures IsDigit(c) && c as int - '0' as int == d
  {
    ('0' as int + d) as char
  }

  /** `str(n)` for a natural number. */
  function OfNat(n: nat): (s: string)
    ensures |s| > 0 && AllDigits(s)
  {
    if n < 10 then [Digit(n)] else OfNat(n / 10) + [Digit(n % 10)]
  }

  function ToNat(s: string): nat
    requires AllDigits(s)
  {
    if s == "" then 0
    else ToNat(s[..|s| - 1]) * 10 + (s[|s| - 1] as int - '0' as int)
  }

  lemma {:induction false} ToNatOfNat(n: nat)
    ensures ToNat(OfNat(n)) == n
  {
    if n >= 10 {
      ToNatOfNat(n / 10);
      assert OfNat(n)[..|OfNat(n)| - 1] == OfNat(n / 10);
    } else {
      assert OfNat(n)[..0] == "";
    }
  }

  /** `n` zeroes in front of `s` do not change its value. */
  lemma {:induction false} ToNatZeroes(n: nat, s: string)
    requires AllDigits(s)
    ensures AllDigits(Zeroes(n) + s) && ToNat(Zeroes(n) + s) == ToNat(s)
  {
    var z := Zeroes(n) + s;
    if s == "" {
      assert z == Zeroes(n);
      if n > 0 {
        ToNatZeroes(n - 1, "");
        assert z[..n - 1] == Zeroes(n - 1) + "";
      }
    } else {
      ToNatZeroes(n, s[..|s| - 1]);
      assert z[..|z| - 1] == Zeroes(n) + s[..|s| - 1];
    }
  }

  function Zeroes(n: nat): (s: string)
    ensures |s| == n && AllDigits(s)
  {
    seq(n, _ => '0')
  }

  function Pow10(k: nat): nat {
    if k == 0 then 1 else 10 * Pow10(k - 1)
  }

  /** A number has at most `k` digits exactly when it is below 10^k. */
  lemma {:induction false} DigitCount(n: nat, k: nat)
    requires k > 0
    ensures |OfNat(n)| <= k <==> n < Pow10(k)
  {
    if k == 1 {
      assert Pow10(1) == 10 * Pow10(0);
    } else if n >= 10 {
      DigitCount(n / 10, k - 1);
      assert Pow10(k) == 10 * Pow10(k - 1);
    } else {
      PowPositive(k - 1);
    }
  }

  lemma PowPositive(k: nat)
    ensures Pow10(k) >= 1
  {
  }

  /** `f"{n:0{w}d}"`: zero padded to `w` digits, longer when `n` does not fit. */
  function Padded(n: nat, w: nat): (s: string)
    ensures AllDigits(s) && |s| >= w
  {
    var d := OfNat(n);
    if |d| >= w then d else Zeroes(w - |d|) + d
  }

  lemma ToNatPadded(n: nat, w: nat)
    ensures ToNat(Padded(n, w)) == n
  {
    ToNatOfNat(n);
    var d := OfNat(n);
    if |d| < w {
      ToNatZeroes(w - |d|, d);
    }
  }

  /** `sep.join(parts)` */
  function Join(sep: string, parts: seq<string>): string {
    if |parts| == 0 then ""
    else if |parts| == 1 then parts[0]
    else parts[0] + sep + Join(sep, parts[1..])
  }

  /** The number of times `c` occurs. */
  function Count(s: string, c: char): nat {
    if s == "" then 0 else (if s[0] == c then 1 else 0) + Count(s[1..], c)
  }

  lemma {:induction false} CountConcat(a: string, b: string, c: char)
    ensures Count(a + b, c) == Count(a, c) + Count(b, c)
  {
    if a == "" {
      assert a + b == b;
    } else {
      assert (a + b)[1..] == a[1..] + b;
      CountConcat(a[1..], b, c);
    }
  }
}
