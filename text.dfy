/** Decimal text of integers, as Go's fmt verb %d writes an int, and its inverse. */
module Text {

  datatype Option<T> = None | Some(value: T)

  predicate IsDigit(c: char) {
    '0' <= c <= '9'
  }

  predicate AllDigits(s: string) {
    forall k :: 0 <= k < |s| ==> IsDigit(s[k])
  }

  function DigitChar(d: nat): (c: char)
    requires d < 10
    ensures IsDigit(c)
    ensures c as int - '0' as int == d
  {
    ('0' as int + d) as char
  }

  function DigitValue(c: char): nat
    requires IsDigit(c)
  {
    c as int - '0' as int
  }

  /** The decimal digits of n, most significant first, without leading zeros. */
  function NatToString(n: nat): (s: string)
    decreases n
    ensures |s| >= 1
    ensures AllDigits(s)
    ensures s[0] == '0' <==> n == 0
    ensures n == 0 ==> s == "0"
  {
    if n < 10 then [DigitChar(n)] else NatToString(n / 10) + [DigitChar(n % 10)]
  }

  /** fmt's %d on an int: a minus sign before the magnitude of a negative value. */
  function IntToString(i: int): (s: string)
    ensures |s| >= 1
    ensures s[0] == '-' <==> i < 0
    ensures i < 0 ==> AllDigits(s[1..])
    ensures i >= 0 ==> AllDigits(s)
    ensures s[0] == '0' ==> s == "0"
    ensures i < 0 ==> |s| >= 2 && s[1] != '0'
  {
    if i < 0 then "-" + NatToString(-i) else NatToString(i)
  }

  /** Reads a non-empty run of decimal digits. */
  function ParseNat(s: string): Option<nat>
    decreases |s|
  {
    if |s| == 0 || !IsDigit(s[|s| - 1]) then None
    else if |s| == 1 then Some(DigitValue(s[0]))
    else match ParseNat(s[..|s| - 1])
      case None => None
      case Some(high) => Some(10 * high + DigitValue(s[|s| - 1]))
  }

  /** Reads an optionally negative decimal integer. */
  function ParseInt(s: string): Option<int> {
    if |s| > 0 && s[0] == '-' then
      match ParseNat(s[1..])
      case None => None
      case Some(n) => Some(-(n as int))
    else
      match ParseNat(s)
      case None => None
      case Some(n) => Some(n)
  }

  lemma {:induction false} NatRoundTrip(n: nat)
    ensures ParseNat(NatToString(n)) == Some(n)
  {
    if n >= 10 {
      var s := NatToString(n);
      NatRoundTrip(n / 10);
      assert s[..|s| - 1] == NatToString(n / 10);
      assert s[|s| - 1] == DigitChar(n % 10);
    }
  }

  lemma IntRoundTrip(i: int)
    ensures ParseInt(IntToString(i)) == Some(i)
  {
    if i < 0 {
      assert IntToString(i)[1..] == NatToString(-i);
      NatRoundTrip(-i);
    } else {
      NatRoundTrip(i);
    }
  }

  /** Distinct integers are written differently. */
  lemma IntToStringInjective(a: int, b: int)
    ensures IntToString(a) == IntToString(b) <==> a == b
  {
    if IntToString(a) == IntToString(b) {
      IntRoundTrip(a);
      IntRoundTrip(b);
    }
  }

  /** Splitting at the first occurrence of a character that neither head contains. */
  lemma {:induction false} SplitAtFirst(a: string, b: string, c: char, ra: string, rb: string)
    requires forall k :: 0 <= k < |a| ==> a[k] != c
    requires forall k :: 0 <= k < |b| ==> b[k] != c
    ensures a + [c] + ra == b + [c] + rb <==> a == b && ra == rb
  {
    var x, y := a + [c] + ra, b + [c] + rb;
    if x == y {
      assert y[|a|] == x[|a|] == c;
      assert x[|b|] == y[|b|] == c;
      assert |a| == |b|;
      assert a == x[..|a|] == y[..|b|] == b;
      assert ra == x[|a| + 1..] == y[|b| + 1..] == rb;
    }
  }

  /** The text of an integer never holds a comma or a line break. */
  lemma IntToStringHasNo(i: int, c: char)
    requires !IsDigit(c) && c != '-'
    ensures forall k :: 0 <= k < |IntToString(i)| ==> IntToString(i)[k] != c
  {
    var s := IntToString(i);
    forall k | 0 <= k < |s| ensures s[k] != c {
      if i < 0 && k > 0 {
        assert s[k] == s[1..][k - 1];
      }
    }
  }

  /** An integer field followed by a delimiter can be read back from behind a known head. */
  lemma IntFieldReadBack(head: string, i: int, j: int, c: char, ra: string, rb: string)
    requires !IsDigit(c) && c != '-'
    requires head + (IntToString(i) + [c] + ra) == head + (IntToString(j) + [c] + rb)
    ensures i == j && ra == rb
  {
    var x := head + (IntToString(i) + [c] + ra);
    var y := head + (IntToString(j) + [c] + rb);
    assert x[|head|..] == IntToString(i) + [c] + ra;
    assert y[|head|..] == IntToString(j) + [c] + rb;
    IntToStringHasNo(i, c);
    IntToStringHasNo(j, c);
    SplitAtFirst(IntToString(i), IntToString(j), c, ra, rb);
    IntToStringInjective(i, j);
  }
}
