/** The number formatters of c_io.c and ulibc.c, which write digits through a buffer pointer. */
module Digits {
  import opened Common

  type Int32 = x: int | -0x8000_0000 <= x < 0x8000_0000

  // C's division rounds toward zero.
  function Quotient(value: Int32): Int32 {
    var v: int := value;
    if v >= 0 then v / 10 else -((-v) / 10)
  }

  function Remainder(value: Int32): int {
    var q: int := Quotient(value);
    value - 10 * q
  }

  // Unary minus wraps.
  function Negated(value: Int32): Int32 { if value == -0x8000_0000 then value else -value }

  function Magnitude(value: int): nat { if value < 0 then -value else value }

  const HEX_DIGITS := "0123456789ABCDEF"

  function Digit(d: nat): char
    requires d < 16
  {
    HEX_DIGITS[d]
  }

  // The digits of a number, most significant first.
  function Numeral(n: nat, base: nat): (s: string)
    requires 2 <= base <= 16
    ensures |s| > 0
  {
    if n < base then [Digit(n)] else Numeral(n / base, base) + [Digit(n % base)]
  }

  function Decimal(value: Int32): string {
    (if value < 0 then "-" else "") + Numeral(Magnitude(value), 10)
  }

  // The last k hexadecimal digits of a number.
  function Fixed(n: nat, k: nat): (s: string)
    ensures |s| == k
  {
    if k == 0 then "" else Fixed(n / 16, k - 1) + [Digit(n % 16)]
  }

  function DigitValue(c: char): nat {
    if '0' <= c <= '9' then c as int - '0' as int
    else if 'A' <= c <= 'F' then c as int - 'A' as int + 10
    else 16
  }

  // Reading a numeral.
  function Parse(s: string, base: nat): nat {
    if s == "" then 0 else Parse(s[..|s| - 1], base) * base + DigitValue(s[|s| - 1])
  }

  function ParseDecimal(s: string): int {
    if s != "" && s[0] == '-' then 0 - Parse(s[1..], 10) else Parse(s, 10)
  }

  lemma DigitValueIs(d: nat)
    requires d < 16
    ensures DigitValue(Digit(d)) == d && Digit(d) != '-' && (Digit(d) == '0' <==> d == 0)
  {}

  lemma ParseMore(s: string, c: char, base: nat)
    ensures Parse(s + [c], base) == Parse(s, base) * base + DigitValue(c)
  {
    assert (s + [c])[..|s|] == s;
  }

  lemma Division(n: nat, base: nat)
    requires base >= 2
    ensures n == n / base * base + n % base && (n >= base ==> 0 < n / base < n)
  {}

  // Reading inverts writing, and there are no leading zeros.
  lemma {:induction false} NumeralInverts(n: nat, base: nat)
    requires 2 <= base <= 16
    ensures Parse(Numeral(n, base), base) == n
    ensures Numeral(n, base)[0] != '-' && (Numeral(n, base)[0] == '0' <==> n == 0)
    decreases n
  {
    if n < base {
      DigitValueIs(n);
      ParseMore("", Digit(n), base);
      assert "" + [Digit(n)] == [Digit(n)];
    } else {
      Division(n, base);
      var q, r := n / base, n % base;
      DigitValueIs(r);
      NumeralInverts(q, base);
      ParseMore(Numeral(q, base), Digit(r), base);
    }
  }

  lemma DecimalInverts(value: Int32)
    ensures ParseDecimal(Decimal(value)) == value
    ensures value >= 0 ==> (Decimal(value)[0] == '0' <==> value == 0)
    ensures value < 0 ==> Decimal(value)[0] == '-' && Decimal(value)[1] != '0'
  {
    NumeralInverts(Magnitude(value), 10);
  }

  // The number of digits is minimal for the value.
  function Power(base: nat, k: nat): nat { if k == 0 then 1 else base * Power(base, k - 1) }

  lemma {:induction false} NumeralLength(n: nat, base: nat, k: nat)
    requires 2 <= base <= 16 && k > 0
    ensures |Numeral(n, base)| <= k <==> n < Power(base, k)
    decreases k
  {
    if n < base {
      PowerGrows(base, k);
    } else if k > 1 {
      NumeralLength(n / base, base, k - 1);
      DivBelow(n, base, Power(base, k - 1));
    } else {
      assert Power(base, 1) == base * Power(base, 0) == base;
    }
  }

  lemma {:induction false} PowerGrows(base: nat, k: nat)
    requires base >= 2 && k > 0
    ensures Power(base, k) >= base
  {
    if k > 1 {
      PowerGrows(base, k - 1);
      assert base * Power(base, k - 1) >= 1 * Power(base, k - 1);
    } else {
      assert Power(base, 1) == base * Power(base, 0) == base;
    }
  }

  lemma DivBelow(n: nat, base: nat, p: nat)
    requires base > 0
    ensures n / base < p <==> n < base * p
  {
    var q, r := n / base, n % base;
    assert n == base * q + r;
    if q < p {
      assert base * (q + 1) <= base * p;
    } else {
      assert base * p <= base * q;
    }
  }

  // With the terminator the text fits the 12 bytes that the callers provide.
  lemma DecimalFits(value: Int32)
    ensures |Decimal(value)| <= 11
  {
    NumeralLength(Magnitude(value), 10, 10);
    assert Power(10, 10) == 10_000_000_000 by {
      assert Power(10, 5) == 100000;
      assert Power(10, 10) == 10 * (10 * (10 * (10 * (10 * Power(10, 5)))));
    }
  }

  lemma {:induction false} FixedInverts(n: nat, k: nat)
    requires n < Power(16, k)
    ensures Parse(Fixed(n, k), 16) == n
  {
    if k > 0 {
      Division(n, 16);
      DivBelow(n, 16, Power(16, k - 1));
      FixedInverts(n / 16, k - 1);
      DigitValueIs(n % 16);
      ParseMore(Fixed(n / 16, k - 1), Digit(n % 16), 16);
    } else {
      assert Power(16, 0) == 1;
    }
  }

  lemma PowerEight()
    ensures Power(16, 8) == 0x1_0000_0000
  {
    assert Power(16, 4) == 0x1_0000;
    assert Power(16, 8) == 16 * (16 * (16 * (16 * Power(16, 4))));
  }

  // What a conversion to hexadecimal leaves: no more digits than needed, or all eight.
  function Hex(value: Word, all: bool): (s: string)
    ensures if all then |s| == 8 else 1 <= |s| <= 8
  {
    PowerEight();
    NumeralLength(value, 16, 8);
    if all then Fixed(value, 8) else Numeral(value, 16)
  }

  lemma HexInverts(value: Word, all: bool)
    ensures Parse(Hex(value, all), 16) == value
    ensures all || (Hex(value, all)[0] == '0' <==> value == 0)
  {
    PowerEight();
    if all {
      FixedInverts(value, 8);
    } else {
      NumeralInverts(value, 16);
    }
  }
}
