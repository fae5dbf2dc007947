/** Unsigned shifts and base-b digit strings: the arithmetic behind the
    enumeration of polarity codes (one bit per piece) and rotation codes
    (two bits per piece). */
module Digits {

  /** The digit bases the enumeration uses: one bit (polarities) and two bits
      (rotations) per digit. */
  predicate IsBase(b: nat) {
    b == 2 || b == 4
  }

  /** b to the n. */
  function Pow(b: nat, n: nat): (p: nat)
    ensures b > 0 ==> p > 0
  {
    if n == 0 then 1 else b * Pow(b, n - 1)
  }

  /** `v >> n` on an unsigned integer: n halvings, each dropping the lowest bit. */
  function Shr(v: nat, n: nat): (r: nat)
    ensures r <= v
    ensures v < Pow(2, n) ==> r == 0
  {
    if n == 0 then v else Shr(v / 2, n - 1)
  }

  /** v divided n times by b, rounding down each time. */
  function DivPow(v: nat, b: nat, n: nat): (r: nat)
    requires IsBase(b)
  {
    if n == 0 then v else DivPow(v / b, b, n - 1)
  }

  /** The n lowest base-b digits of v, least significant first. */
  function ToDigits(v: nat, b: nat, n: nat): (ds: seq<nat>)
    requires IsBase(b)
    ensures |ds| == n
    ensures forall i | 0 <= i < n :: ds[i] < b
  {
    if n == 0 then [] else [v % b] + ToDigits(v / b, b, n - 1)
  }

  /** The number whose base-b digits, least significant first, are `ds`. */
  function FromDigits(ds: seq<nat>, b: nat): nat {
    if |ds| == 0 then 0 else ds[0] + b * FromDigits(ds[1..], b)
  }

  /** Digit i of ToDigits is what is left after i divisions, modulo b. */
  lemma {:induction false} DigitAt(v: nat, b: nat, n: nat, i: nat)
    requires IsBase(b) && i < n
    ensures ToDigits(v, b, n)[i] == DivPow(v, b, i) % b
    decreases i
  {
    if i > 0 {
      DigitAt(v / b, b, n - 1, i - 1);
    }
  }

  /** A positive multiple of d is at least d. */
  lemma MulAtLeast(d: nat, k: int)
    ensures k >= 1 ==> d * k >= d
  {
    if k >= 1 {
      assert d * k == d + d * (k - 1);
    }
  }

  /** A quotient is determined by any decomposition with a remainder below
      the divisor. */
  lemma QuotientUnique(v: nat, d: nat, c: nat, r: nat)
    requires 0 < d && r < d && v == d * c + r
    ensures v / d == c
  {
    var c', r' := v / d, v % d;
    assert d * c - d * c' == d * (c - c');
    MulAtLeast(d, c - c');
    MulAtLeast(d, c' - c);
  }

  /** Dividing by b and then by q is dividing by b * q. */
  lemma DivDiv(v: nat, b: nat, q: nat)
    requires IsBase(b) && q > 0
    ensures v / b / q == v / (b * q)
  {
    var a, r1 := v / b, v % b;
    var c, r2 := a / q, a % q;
    assert a == q * c + r2;
    assert b * r2 + r1 < b * q by {
      assert b * r2 <= b * (q - 1);
    }
    assert v == (b * q) * c + (b * r2 + r1) by {
      assert v == b * a + r1;
      assert b * a == b * (q * c) + b * r2;
    }
    QuotientUnique(v, b * q, c, b * r2 + r1);
  }

  /** Dividing n times by b, rounding down each time, is one division by b^n. */
  lemma {:induction false} DivPowIsQuotient(v: nat, b: nat, n: nat)
    requires IsBase(b)
    ensures DivPow(v, b, n) == v / Pow(b, n)
    decreases n
  {
    if n > 0 {
      DivPowIsQuotient(v / b, b, n - 1);
      DivDiv(v, b, Pow(b, n - 1));
    }
  }

  /** `v >> n` is v divided by 2^n, rounded down. */
  lemma {:induction false} ShrIsHalving(v: nat, n: nat)
    ensures Shr(v, n) == v / Pow(2, n)
    decreases n
  {
    if n > 0 {
      ShrIsHalving(v / 2, n - 1);
      DivDiv(v, 2, Pow(2, n - 1));
    }
  }

  /** A right shift by 2i is i divisions by 4. */
  lemma {:induction false} ShrTwiceIsQuartering(v: nat, i: nat)
    ensures Shr(v, 2 * i) == DivPow(v, 4, i)
    decreases i
  {
    if i > 0 {
      calc {
        Shr(v, 2 * i);
        Shr(v / 2, 2 * i - 1);
        Shr(v / 2 / 2, 2 * (i - 1));
        { assert v / 2 / 2 == v / 4; }
        Shr(v / 4, 2 * (i - 1));
        { ShrTwiceIsQuartering(v / 4, i - 1); }
        DivPow(v / 4, 4, i - 1);
      }
    }
  }

  /** Division with remainder has a unique quotient and remainder. */
  lemma DivModUnique(a: nat, b: nat, q: nat, r: nat)
    requires IsBase(b) && r < b && a == b * q + r
    ensures a / b == q && a % b == r
  {
  }

  /** n digits below b encode a number below b^n. */
  lemma {:induction false} FromDigitsBound(ds: seq<nat>, b: nat)
    requires IsBase(b) && forall i | 0 <= i < |ds| :: ds[i] < b
    ensures FromDigits(ds, b) < Pow(b, |ds|)
  {
    if |ds| > 0 {
      var rest := FromDigits(ds[1..], b);
      FromDigitsBound(ds[1..], b);
      assert b * rest <= b * (Pow(b, |ds| - 1) - 1);
    }
  }

  /** Dropping the lowest digit of a number below b^n leaves a number below b^(n-1). */
  lemma QuotientBound(v: nat, b: nat, n: nat)
    requires IsBase(b) && 0 < n && v < Pow(b, n)
    ensures v / b < Pow(b, n - 1)
  {
    assert Pow(b, n) == b * Pow(b, n - 1);
  }

  /** Reading off the n digits of a number below b^n and encoding them gives
      the number back: distinct codes have distinct digit strings. */
  lemma {:induction false} FromToDigits(v: nat, b: nat, n: nat)
    requires IsBase(b) && v < Pow(b, n)
    ensures FromDigits(ToDigits(v, b, n), b) == v
  {
    if n > 0 {
      var q := v / b;
      QuotientBound(v, b, n);
      FromToDigits(q, b, n - 1);
      assert ToDigits(v, b, n)[1..] == ToDigits(q, b, n - 1);
    }
  }

  /** Encoding a digit string and reading its digits back gives the string:
      every digit string is the digits of some code. */
  lemma {:induction false} ToFromDigits(ds: seq<nat>, b: nat)
    requires IsBase(b) && forall i | 0 <= i < |ds| :: ds[i] < b
    ensures ToDigits(FromDigits(ds, b), b, |ds|) == ds
  {
    if |ds| > 0 {
      var rest := FromDigits(ds[1..], b);
      DivModUnique(FromDigits(ds, b), b, rest, ds[0]);
      ToFromDigits(ds[1..], b);
      assert ds == [ds[0]] + ds[1..];
    }
  }
}
