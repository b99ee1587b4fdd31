/** Numbers as text. */
module Numerals {
  import opened Basics

  /** Most significant digit first; zero is one digit. */
  function Digits(base: nat, n: nat): (r: seq<nat>)
    requires base >= 2
    ensures r != [] && forall i | 0 <= i < |r| :: r[i] < base
  {
    if n < base then [n]
    else
      Shrinks(base, n);
      Digits(base, n / base) + [n % base]
  }

  lemma Shrinks(base: nat, n: nat)
    requires base >= 2 && n >= base
    ensures 0 < n / base < n && n % base < base && n / base * base + n % base == n
  {
    var q := n / base;
    assert q * base + n % base == n;
    assert q <= 0 ==> q * base <= 0;
    assert q >= 0 ==> q * base >= q * 2;
  }

  function ValueOf(base: nat, digits: seq<nat>): nat {
    if digits == [] then 0 else ValueOf(base, digits[..|digits| - 1]) * base + Last(digits)
  }

  lemma {:induction false} ValueOfDigits(base: nat, n: nat)
    requires base >= 2
    ensures ValueOf(base, Digits(base, n)) == n
    decreases n
  {
    hide Digits, ValueOf;
    DigitsStep(base, n);
    if n < base {
      ValueStep(base, [], n);
      assert [] + [n] == [n];
    } else {
      Shrinks(base, n);
      ValueOfDigits(base, n / base);
      ValueStep(base, Digits(base, n / base), n % base);
    }
  }

  lemma DigitsStep(base: nat, n: nat)
    requires base >= 2
    ensures Digits(base, n) == if n < base then [n] else Digits(base, n / base) + [n % base]
  {
  }

  lemma ValueStep(base: nat, digits: seq<nat>, d: nat)
    ensures ValueOf(base, digits + [d]) == (if digits == [] then 0 else ValueOf(base, digits)) * base + d
  {
    assert (digits + [d])[..|digits|] == digits;
  }

  const SYMBOLS := "0123456789ABCDEF"

  function Text(base: nat, n: nat): (r: string)
    requires 2 <= base <= 16
    ensures r != [] && |r| == |Digits(base, n)|
  {
    seq(|Digits(base, n)|, i requires 0 <= i < |Digits(base, n)| => SYMBOLS[Digits(base, n)[i]])
  }

  /** The digit a symbol stands for. */
  function DigitOf(c: char): Option<nat> {
    if '0' <= c <= '9' then Some((c - '0') as nat)
    else if 'A' <= c <= 'F' then Some(10 + (c - 'A') as nat)
    else if 'a' <= c <= 'f' then Some(10 + (c - 'a') as nat)
    else None
  }

  lemma SymbolIsDigit(d: nat)
    requires d < 16
    ensures DigitOf(SYMBOLS[d]) == Some(d)
  {
  }

  /** Different numbers have different texts. */
  lemma TextIsInjective(base: nat, m: nat, n: nat)
    requires 2 <= base <= 16 && Text(base, m) == Text(base, n)
    ensures m == n
  {
    var a, b := Digits(base, m), Digits(base, n);
    forall i | 0 <= i < |a|
      ensures a[i] == b[i]
    {
      assert Text(base, m)[i] == Text(base, n)[i];
      SymbolIsDigit(a[i]);
      SymbolIsDigit(b[i]);
    }
    assert a == b;
    ValueOfDigits(base, m);
    ValueOfDigits(base, n);
  }
}
