/** Decimal numerals, and why an id built from a name, a separator and a numeral names one pair only. */
module Decimal {

  function Digit(d: nat): char
    requires d < 10
  {
    "0123456789"[d]
  }

  function Digits(n: nat): string {
    if n < 10 then [Digit(n)] else Digits(n / 10) + [Digit(n % 10)]
  }

  /** fmt's %d. */
  function Numeral(n: int): string {
    if n < 0 then "-" + Digits(-n) else Digits(n)
  }

  lemma DigitIsOne(d: nat, e: nat)
    requires d < 10 && e < 10
    ensures Digit(d) == Digit(e) ==> d == e
    ensures Digit(d) in "0123456789"
  {
  }

  lemma {:induction false} DigitsOnly(n: nat)
    ensures Digits(n) != [] && forall i :: 0 <= i < |Digits(n)| ==> Digits(n)[i] in "0123456789"
  {
    DigitIsOne(n % 10, 0);
    if n >= 10 { DigitsOnly(n / 10); }
  }

  /** The number a string of digits spells out. */
  function ReadDigits(s: string): int {
    if s == [] then 0 else 10 * ReadDigits(s[..|s| - 1]) + (s[|s| - 1] as int - '0' as int)
  }

  lemma DigitReads(d: nat)
    requires d < 10
    ensures Digit(d) as int - '0' as int == d
  {
  }

  /** A numeral spells out its number, without leading zeros. */
  lemma {:induction false} DigitsRead(n: nat)
    ensures ReadDigits(Digits(n)) == n && Digits(n) != []
    ensures n > 0 ==> Digits(n)[0] != '0'
  {
    DigitReads(n % 10);
    var s := Digits(n);
    if n >= 10 {
      DigitsRead(n / 10);
      assert s[..|s| - 1] == Digits(n / 10);
    } else {
      assert s[..|s| - 1] == [];
      assert ReadDigits([]) == 0;
    }
  }

  lemma {:induction false} DigitsInjective(m: nat, n: nat)
    requires Digits(m) == Digits(n)
    ensures m == n
  {
    var s := Digits(m);
    DigitsOnly(m / 10);
    DigitsOnly(n / 10);
    assert s[|s| - 1] == Digit(m % 10) && s[|s| - 1] == Digit(n % 10);
    DigitIsOne(m % 10, n % 10);
    if m >= 10 && n >= 10 {
      assert s[..|s| - 1] == Digits(m / 10) && s[..|s| - 1] == Digits(n / 10);
      DigitsInjective(m / 10, n / 10);
    }
  }

  lemma NumeralInjective(m: int, n: int)
    requires Numeral(m) == Numeral(n)
    ensures m == n
  {
    DigitsOnly(if m < 0 then -m else m);
    DigitsOnly(if n < 0 then -n else n);
    assert m < 0 <==> Numeral(m)[0] == '-';
    assert n < 0 <==> Numeral(n)[0] == '-';
    if m < 0 {
      assert Numeral(m)[1..] == Digits(-m) && Numeral(n)[1..] == Digits(-n);
      DigitsInjective(-m, -n);
    } else {
      DigitsInjective(m, n);
    }
  }

  lemma NumeralHas(n: int, c: char)
    ensures c in Numeral(n) ==> c == '-' || c in "0123456789"
  {
    DigitsOnly(if n < 0 then -n else n);
  }

  /** The last separator tells the two parts apart, whatever the name contains. */
  lemma {:induction false} LastSeparatorSplits(a: string, x: string, b: string, y: string, sep: char)
    requires sep !in x && sep !in y
    requires a + [sep] + x == b + [sep] + y
    ensures a == b && x == y
    decreases |x|
  {
    var s := a + [sep] + x;
    assert s[|s| - 1] == sep <==> x == [];
    assert s[|s| - 1] == sep <==> y == [];
    if x == [] {
      assert a == s[..|s| - 1] == b;
    } else {
      var x', y' := x[..|x| - 1], y[..|y| - 1];
      assert s[..|s| - 1] == a + [sep] + x';
      assert s[..|s| - 1] == b + [sep] + y';
      LastSeparatorSplits(a, x', b, y', sep);
      assert s[|s| - 1] == x[|x| - 1] == y[|y| - 1];
      assert x == x' + [x[|x| - 1]] && y == y' + [y[|y| - 1]];
    }
  }

  /** name + separator + numeral determines both, for a separator no numeral contains. */
  lemma NamedNumeralInjective(a: string, m: int, b: string, n: int, sep: char)
    requires sep != '-' && sep !in "0123456789"
    requires a + [sep] + Numeral(m) == b + [sep] + Numeral(n)
    ensures a == b && m == n
  {
    NumeralHas(m, sep);
    NumeralHas(n, sep);
    LastSeparatorSplits(a, Numeral(m), b, Numeral(n), sep);
    NumeralInjective(m, n);
  }
}
