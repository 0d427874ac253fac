/**
  * Decimal notation of integers, as Python's `str` (and numpy's `str` of an integer scalar)
  * writes them: an optional minus sign followed by digits without leading zeros.
  * The Weisfeiler--Lehman labels are such strings, so their injectivity and the fact that
  * a range [n, 2n) of them is prefix-free matter for the relabelling.
  */
module Decimal {

  function Digit(d: nat): (c: char)
    requires d < 10
    ensures '0' <= c <= '9'
    ensures (c == '0') <==> d == 0
  {
    (48 + d) as char
  }

  /** Digits of n, most significant first. */
  function NatToString(n: nat): (s: string)
    ensures |s| >= 1
    ensures '0' <= s[0] <= '9' && '0' <= s[|s| - 1] <= '9'
    ensures s[0] == '0' <==> n == 0
    ensures n >= 10 <==> |s| >= 2
    decreases n
  {
    if n < 10 then [Digit(n)] else NatToString(n / 10) + [Digit(n % 10)]
  }

  /** `str(i)` for an integer i. */
  function IntToString(i: int): (s: string)
    ensures |s| >= 1
    ensures s[0] == '-' <==> i < 0
  {
    if i < 0 then "-" + NatToString(-i) else NatToString(i)
  }

  lemma DigitInjective(a: nat, b: nat)
    requires a < 10 && b < 10 && Digit(a) == Digit(b)
    ensures a == b
  {
  }

  /** Different natural numbers have different decimal notations. */
  lemma {:induction false} NatToStringInjective(a: nat, b: nat)
    requires NatToString(a) == NatToString(b)
    ensures a == b
    decreases a
  {
    var s := NatToString(a);
    if a < 10 && b < 10 {
      DigitInjective(a, b);
    } else if a >= 10 && b >= 10 {
      assert NatToString(a / 10) == s[..|s| - 1] == NatToString(b / 10);
      NatToStringInjective(a / 10, b / 10);
      DigitInjective(a % 10, b % 10);
    }
  }

  /** Different integers have different `str` values. */
  lemma IntToStringInjective(a: int, b: int)
    requires IntToString(a) == IntToString(b)
    ensures a == b
  {
    var s := IntToString(a);
    if a < 0 && b < 0 {
      assert NatToString(-a) == s[1..] == NatToString(-b);
      NatToStringInjective(-a, -b);
    } else if a >= 0 && b >= 0 {
      NatToStringInjective(a, b);
    }
  }

  /** If the digits of x are a proper prefix of the digits of y, then y has at least one
      more digit after them, so y >= 10 * x. */
  lemma {:induction false} ProperPrefixIsSmaller(x: nat, y: nat)
    requires NatToString(x) < NatToString(y)
    ensures y >= 10 * x
    decreases y
  {
    var sx, sy := NatToString(x), NatToString(y);
    assert y >= 10;
    var p := NatToString(y / 10);
    assert sy == p + [Digit(y % 10)];
    assert sx <= p by {
      assert |sx| <= |p|;
      forall i | 0 <= i < |sx| ensures sx[i] == p[i] {
        assert sx[i] == sy[i];
      }
    }
    if sx == p {
      NatToStringInjective(x, y / 10);
    } else {
      ProperPrefixIsSmaller(x, y / 10);
    }
  }

  /** The notations of the numbers n, n+1, ..., 2n-1 form a prefix-free code: none is a
      prefix of another one. */
  lemma DecimalRangePrefixFree(n: nat, x: int, y: int)
    requires n <= x < 2 * n && n <= y < 2 * n
    requires IntToString(x) <= IntToString(y)
    ensures x == y
  {
    if NatToString(x) != NatToString(y) {
      ProperPrefixIsSmaller(x, y);
      assert false;
    }
    NatToStringInjective(x, y);
  }
}
