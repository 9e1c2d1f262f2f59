/** The fixed-point decimals of an order, and how many decimal places one carries
    (trade/assets.go, internal/wire/decimal.go). */
module Decimals {
  /** coeff times ten to the power exp. */
  datatype Decimal = Decimal(coeff: int, exp: int)

  const ZERO := Decimal(0, 0)

  /** A decimal that may be absent. An absent one can still carry an old payload. */
  datatype NullDecimal = NullDecimal(value: Decimal, valid: bool)

  const ABSENT := NullDecimal(ZERO, false)

  function Clear(d: NullDecimal): NullDecimal {
    if d.valid then d else ABSENT
  }

  function Pow10(n: nat): (p: int)
    ensures p >= 1
  {
    if n == 0 then 1 else 10 * Pow10(n - 1)
  }

  /** The number of digits the decimal's string form has after its point: that form has no
      trailing zeros there. */
  function Scale(d: Decimal): nat
    decreases if d.exp < 0 then -d.exp else 0
  {
    if d.exp >= 0 then 0
    else if d.coeff % 10 == 0 then Scale(Decimal(d.coeff / 10, d.exp + 1))
    else -d.exp
  }

  /** d times ten to the power k is a whole number. */
  predicate WholeAt(d: Decimal, k: nat) {
    d.exp + k >= 0 || d.coeff % Pow10(-(d.exp + k)) == 0
  }

  lemma DivideByTenFirst(c: int, p: int)
    requires p >= 1
    ensures c % (10 * p) == 0 <==> c % 10 == 0 && (c / 10) % p == 0
  {
    if c % (10 * p) == 0 {
      var q := c / (10 * p);
      assert c == 10 * p * q + c % (10 * p);
      assert c == 10 * (p * q);
      assert c / 10 == p * q;
      MultipleMod(p, q);
    }
    if c % 10 == 0 && (c / 10) % p == 0 {
      var q := c / 10 / p;
      assert c / 10 == p * q + (c / 10) % p;
      assert c == 10 * p * q;
      MultipleMod(10 * p, q);
    }
  }

  lemma MultipleMod(p: int, q: int)
    requires p >= 1
    ensures (p * q) % p == 0
  {
    var m := q - (p * q) / p;
    assert p * m == (p * q) % p by {
      assert p * q == p * ((p * q) / p) + (p * q) % p;
    }
    MultipleIsFar(p, m);
  }

  lemma MultipleIsFar(p: int, m: int)
    requires p >= 1
    ensures m >= 1 ==> p * m >= p
    ensures m <= -1 ==> p * m <= -p
  {
    if m >= 1 {
      assert p * m == p * (m - 1) + p;
      assert p * (m - 1) >= 0;
    } else if m <= -1 {
      assert p * m == p * (m + 1) - p;
      assert p * -(m + 1) >= 0;
    }
  }

  /** `Scale` is the least number of decimal places that makes the value whole. */
  lemma {:induction false} ScaleIsLeast(d: Decimal, k: nat)
    ensures Scale(d) <= k <==> WholeAt(d, k)
    decreases if d.exp < 0 then -d.exp else 0
  {
    if d.exp < 0 {
      if d.coeff % 10 == 0 {
        ScaleIsLeast(Decimal(d.coeff / 10, d.exp + 1), k);
        if d.exp + k < 0 {
          DivideByTenFirst(d.coeff, Pow10(-(d.exp + k) - 1));
        }
      } else if d.exp + k < 0 {
        DivideByTenFirst(d.coeff, Pow10(-(d.exp + k) - 1));
      }
    }
  }
}
