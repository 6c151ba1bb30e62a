/** Go's `%d` formatting of a signed integer, the inverse parser, and the pool key
    `fmt.Sprintf("%s/%d", addr, int64(timeout))` that both connection pools use. */
module Decimal {
  import opened Base

  predicate IsDigit(c: char) {
    '0' <= c <= '9'
  }

  function DigitChar(d: nat): (c: char)
    requires d < 10
    ensures IsDigit(c) && c as int - '0' as int == d
  {
    (d + '0' as int) as char
  }

  function DigitValue(c: char): (d: nat)
    requires IsDigit(c)
    ensures d < 10
  {
    c as int - '0' as int
  }

  predicate AllDigits(s: string) {
    forall i :: 0 <= i < |s| ==> IsDigit(s[i])
  }

  /** Decimal digits of `n`, most significant first, without leading zeros. */
  function FormatNat(n: nat): (s: string)
    ensures |s| > 0 && AllDigits(s)
    ensures s[0] == '0' <==> n == 0
    decreases n
  {
    if n < 10 then [DigitChar(n)] else FormatNat(n / 10) + [DigitChar(n % 10)]
  }

  /** `strconv.FormatInt(i, 10)`, which is what `%d` prints for an `int64`. */
  function FormatInt(i: int): (s: string)
    ensures |s| > 0
    ensures i < 0 <==> s[0] == '-'
  {
    if i < 0 then "-" + FormatNat(-i) else FormatNat(i)
  }

  /** Value of a string of decimal digits (the empty string reads as 0). */
  function ParseNat(s: string): nat
    requires AllDigits(s)
  {
    if s == [] then 0 else ParseNat(s[..|s| - 1]) * 10 + DigitValue(s[|s| - 1])
  }

  /** Inverse of FormatInt on the strings it produces. */
  function ParseInt(s: string): int
    requires |s| > 0
    requires AllDigits(s) || (s[0] == '-' && AllDigits(s[1..]))
  {
    if s[0] == '-' then -(ParseNat(s[1..]) as int) else ParseNat(s)
  }

  lemma {:induction false} ParseFormatNat(n: nat)
    ensures ParseNat(FormatNat(n)) == n
    decreases n
  {
    if n >= 10 {
      var s := FormatNat(n);
      assert s[..|s| - 1] == FormatNat(n / 10);
      ParseFormatNat(n / 10);
    }
  }

  /** Formatting a signed integer can be undone: the decimal text determines the number. */
  lemma ParseFormatInt(i: int)
    ensures var s := FormatInt(i);
            (AllDigits(s) || (s[0] == '-' && AllDigits(s[1..]))) && ParseInt(s) == i
  {
    var s := FormatInt(i);
    if i < 0 {
      assert s[1..] == FormatNat(-i);
      ParseFormatNat(-i);
    } else {
      ParseFormatNat(i);
    }
  }

  lemma FormatIntInjective(i: int, j: int)
    requires FormatInt(i) == FormatInt(j)
    ensures i == j
  {
    ParseFormatInt(i);
    ParseFormatInt(j);
  }

  /** Every character `%d` prints is a digit or the minus sign; in particular never '/'. */
  lemma FormatIntNoSlash(i: int, k: int)
    requires 0 <= k < |FormatInt(i)|
    ensures FormatInt(i)[k] != '/'
  {
    if i < 0 {
      var s := FormatInt(i);
      if k > 0 {
        assert s[k] == FormatNat(-i)[k - 1];
      }
    }
  }

  /** The pool key of a destination address and a write timeout. */
  function Key(addr: string, timeout: Duration): (k: string)
    ensures |k| > |addr| + 1 && k[..|addr|] == addr && k[|addr|] == '/'
    ensures k[|addr| + 1..] == FormatInt(timeout)
  {
    addr + "/" + FormatInt(timeout)
  }

  /** The key determines both the address and the timeout, even when the address itself
      contains '/': the same address with two timeouts yields two entries, and two
      destinations never share one. */
  lemma KeyInjective(a1: string, t1: Duration, a2: string, t2: Duration)
    requires Key(a1, t1) == Key(a2, t2)
    ensures a1 == a2 && t1 == t2
  {
    var k := Key(a1, t1);
    // the '/' after the address is the last '/' of the key, whichever address it is
    forall j | |a1| + 1 <= j < |k|
      ensures k[j] != '/'
    {
      FormatIntNoSlash(t1, j - (|a1| + 1));
    }
    forall j | |a2| + 1 <= j < |k|
      ensures k[j] != '/'
    {
      FormatIntNoSlash(t2, j - (|a2| + 1));
    }
    assert |a1| == |a2|;
    assert a1 == k[..|a1|] == a2;
    FormatIntInjective(t1, t2);
  }
}
