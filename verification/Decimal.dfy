/** Decimal numerals, as the label parser reads them and the date formatter writes them. */
module Decimal {
  import opened Text

  predicate IsDigit(c: char) {
    '0' <= c <= '9'
  }

  predicate AllDigits(s: string) {
    forall i :: 0 <= i < |s| ==> IsDigit(s[i])
  }

  function Digit(d: nat): char
    requires d < 10
  {
    '0' + d as char
  }

  /** The number a run of digits denotes. */
  function Value(s: string): nat
    requires AllDigits(s)
  {
    if s == [] then 0 else 10 * Value(s[..|s| - 1]) + (s[|s| - 1] - '0') as nat
  }

  /** The numeral of n without leading zeros. */
  function Numeral(n: nat): string {
    if n < 10 then [Digit(n)] else Numeral(n / 10) + [Digit(n % 10)]
  }

  /** The last w digits of n, padded with zeros: `%0wd` for n below 10^w. */
  function Padded(n: nat, w: nat): (s: string)
    ensures |s| == w
  {
    if w == 0 then [] else Padded(n / 10, w - 1) + [Digit(n % 10)]
  }

  function Pow10(w: nat): nat {
    if w == 0 then 1 else 10 * Pow10(w - 1)
  }

  lemma {:induction false} ValueNumeral(n: nat)
    ensures AllDigits(Numeral(n)) && Value(Numeral(n)) == n
    ensures Numeral(n)[0] == '0' <==> n == 0
  {
    var s := Numeral(n);
    if n >= 10 {
      ValueNumeral(n / 10);
      assert s[..|s| - 1] == Numeral(n / 10);
    } else {
      assert s[..0] == [];
    }
  }

  lemma {:induction false} NumeralValue(s: string)
    requires s != [] && AllDigits(s) && s[0] != '0'
    ensures Numeral(Value(s)) == s && Value(s) > 0
  {
    var init, d := s[..|s| - 1], (s[|s| - 1] - '0') as nat;
    assert s == init + [Digit(d)];
    if init == [] {
      assert Value(init) == 0;
    } else {
      NumeralValue(init);
      assert Value(s) / 10 == Value(init) && Value(s) % 10 == d;
    }
  }

  lemma {:induction false} ValuePadded(n: nat, w: nat)
    requires n < Pow10(w)
    ensures AllDigits(Padded(n, w)) && Value(Padded(n, w)) == n
  {
    if w > 0 {
      ValuePadded(n / 10, w - 1);
      var s := Padded(n, w);
      assert s[..|s| - 1] == Padded(n / 10, w - 1);
    }
  }

  lemma {:induction false} PaddedValue(s: string)
    requires AllDigits(s)
    ensures Value(s) < Pow10(|s|) && Padded(Value(s), |s|) == s
  {
    if s != [] {
      var init, d := s[..|s| - 1], (s[|s| - 1] - '0') as nat;
      PaddedValue(init);
      assert s == init + [Digit(d)];
      assert Value(s) / 10 == Value(init) && Value(s) % 10 == d;
    }
  }

  /** On padded numerals the string order is the numeric order. */
  lemma {:induction false} PaddedOrder(a: nat, b: nat, w: nat)
    requires a < Pow10(w) && b < Pow10(w)
    ensures LexLess(Padded(a, w), Padded(b, w)) <==> a < b
    ensures Padded(a, w) == Padded(b, w) <==> a == b
  {
    ValuePadded(a, w);
    ValuePadded(b, w);
    if w > 0 {
      PaddedOrder(a / 10, b / 10, w - 1);
      var x, y := [Digit(a % 10)], [Digit(b % 10)];
      LexPrefix(Padded(a / 10, w - 1), x, Padded(b / 10, w - 1), y);
      assert LexLess(x, y) <==> a % 10 < b % 10 by {
        assert x[1..] == [] && y[1..] == [];
      }
    }
  }
}
