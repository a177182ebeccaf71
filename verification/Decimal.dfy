/** Decimal numerals. */
module Decimal {

  function Digit(d: nat): char
    requires d < 10
  {
    '0' + d as char
  }

  /** `Integer#to_s` */
  function Text(n: nat): (s: string)
    ensures |s| > 0
    decreases n
  {
    if n < 10 then [Digit(n)] else Text(n / 10) + [Digit(n % 10)]
  }

  predicate IsDigit(c: char) { '0' <= c <= '9' }

  predicate IsDigits(s: string) { forall i :: 0 <= i < |s| ==> IsDigit(s[i]) }

  function Value(s: string): nat
    requires IsDigits(s)
    decreases |s|
  {
    if s == [] then 0 else Value(s[..|s| - 1]) * 10 + (s[|s| - 1] - '0') as nat
  }

  lemma {:induction false} TextIsDigits(n: nat)
    ensures IsDigits(Text(n)) && Value(Text(n)) == n
    ensures n > 0 ==> Text(n)[0] != '0'
    decreases n
  {
    if n >= 10 {
      TextIsDigits(n / 10);
      var s := Text(n);
      assert s[..|s| - 1] == Text(n / 10);
    } else {
      assert [Digit(n)][..0] == [];
    }
  }

  /** A C `int` of 32 bits that wraps around on overflow. */
  function Wrapped(n: int): (w: int)
    ensures -0x8000_0000 <= w < 0x8000_0000 && (w - n) % 0x1_0000_0000 == 0
    ensures -0x8000_0000 <= n < 0x8000_0000 ==> w == n
  {
    (n + 0x8000_0000) % 0x1_0000_0000 - 0x8000_0000
  }

  lemma WrappedStep(n: int, d: int)
    ensures Wrapped(Wrapped(n) * 10 + d) == Wrapped(n * 10 + d)
  {
    var k := (Wrapped(n) - n) / 0x1_0000_0000;
    assert Wrapped(n) * 10 + d == n * 10 + d + 10 * k * 0x1_0000_0000;
    WrappedShift(n * 10 + d, 10 * k);
  }

  lemma WrappedShift(n: int, k: int)
    ensures Wrapped(n + k * 0x1_0000_0000) == Wrapped(n)
  {
    var m := 0x1_0000_0000;
    var x := n + 0x8000_0000;
    assert x == x / m * m + x % m;
    assert x + k * m == (x / m + k) * m + x % m;
    ModOf((x / m + k), x % m);
  }

  lemma ModOf(q: int, r: int)
    requires 0 <= r < 0x1_0000_0000
    ensures (q * 0x1_0000_0000 + r) % 0x1_0000_0000 == r
  {}

  /** `str_to_int` of ext/common/c_util.h: leading zeroes are skipped, the rest accumulated. The result is the
      value of the numeral, wrapped around beyond the C `int`. */
  method StrToInt(str: string) returns (number: int)
    requires IsDigits(str)
    ensures number == Wrapped(Value(str))
  {
    number := 0;
    var i := 0;
    while i < |str|
      invariant 0 <= i <= |str| && number == Wrapped(Value(str[..i]))
    {
      assert str[..i + 1][..i] == str[..i];
      WrappedStep(Value(str[..i]), (str[i] - '0') as nat);
      if number != 0 || str[i] != '0' {
        number := Wrapped(number * 10 + (str[i] - '0') as nat);
      }
      i := i + 1;
    }
    assert str[..i] == str;
  }

  lemma TextUnique(a: nat, b: nat)
    requires Text(a) == Text(b)
    ensures a == b
  {
    TextIsDigits(a);
    TextIsDigits(b);
  }
}
