/** Decimal digits, and the 28-digit half-even rounding of Python's default decimal context. */
module Decimals {
  import opened Wrappers
  import opened Bytes

  const PRECISION: nat := 28

  function Pow10(n: nat): (p: nat)
    ensures p >= 1
  {
    if n == 0 then 1 else 10 * Pow10(n - 1)
  }

  /** `len(str(n))`. */
  function Digits(n: nat): (d: nat)
    ensures d >= 1
  {
    if n < 10 then 1 else 1 + Digits(n / 10)
  }

  lemma {:induction false} DigitsBound(n: nat)
    ensures n < Pow10(Digits(n))
    ensures n > 0 ==> Pow10(Digits(n) - 1) <= n
  {
    if n >= 10 {
      DigitsBound(n / 10);
      assert Pow10(Digits(n) - 1) == 10 * Pow10(Digits(n / 10) - 1);
    }
  }

  lemma {:induction false} Pow10Grows(a: nat, b: nat)
    requires a <= b
    ensures Pow10(a) <= Pow10(b)
  {
    if a < b {
      Pow10Grows(a, b - 1);
    }
  }

  lemma {:induction false} Pow10Adds(a: nat, b: nat)
    ensures Pow10(a + b) == Pow10(a) * Pow10(b)
  {
    if a > 0 {
      Pow10Adds(a - 1, b);
      calc {
        Pow10(a + b);
        10 * Pow10(a - 1 + b);
        10 * (Pow10(a - 1) * Pow10(b));
        Pow10(a) * Pow10(b);
      }
    }
  }

  /** The unit the last kept digit stands for. */
  function Unit(n: nat): (u: nat)
    ensures u >= 1
  {
    if Digits(n) <= PRECISION then 1 else Pow10(Digits(n) - PRECISION)
  }

  /** `q`, or one more when `r` of `u` is past half of it: ties go to the even one. */
  function HalfEven(q: nat, r: nat, u: nat): nat {
    if 2 * r > u || (2 * r == u && q % 2 == 1) then q + 1 else q
  }

  function RoundTo(n: nat, u: nat): nat
    requires u >= 1
  {
    HalfEven(n / u, n % u, u) * u
  }

  /** `scaleb` fixes its result to 28 digits. */
  function Round28(n: nat): nat {
    RoundTo(n, Unit(n))
  }

  /** The multiple of the unit below `n`, and what is left. */
  ghost predicate Parts(n: nat, u: nat, q: nat, low: nat, r: nat)
    requires u >= 1
  {
    && q == n / u && r == n % u && low == q * u && n == low + r && r < u
    && RoundTo(n, u) == if HalfEven(q, r, u) == q then low else low + u
  }

  lemma PartsOf(n: nat, u: nat) returns (q: nat, low: nat, r: nat)
    requires u >= 1
    ensures Parts(n, u, q, low, r)
  {
    q, r := n / u, n % u;
    low := q * u;
    OneMore(q, u);
  }

  lemma RoundedIsMultiple(n: nat, u: nat)
    requires u >= 1
    ensures RoundTo(n, u) % u == 0
  {
    MultipleOf(HalfEven(n / u, n % u, u), u);
  }

  lemma Multiples(q: nat, k: nat, u: nat)
    ensures k <= q ==> k * u <= q * u
    ensures k > q ==> q * u + u <= k * u
  {
    if k <= q {
      Scales(k, q, u);
    } else {
      Scales(q + 1, k, u);
      OneMore(q, u);
    }
  }

  /** The rounded number is a multiple of the unit, at most half a unit away; no multiple is nearer. */
  lemma Round28IsNearest(n: nat, k: nat)
    ensures Round28(n) % Unit(n) == 0
    ensures 2 * Abs(Round28(n) - n) <= Unit(n)
    ensures Abs(Round28(n) - n) <= Abs(k * Unit(n) - n)
  {
    var u := Unit(n);
    RoundedIsMultiple(n, u);
    var q, low, r := PartsOf(n, u);
    Multiples(q, k, u);
    NearerOf(n, u, low, r, k * u);
  }

  lemma OneMore(q: nat, u: nat)
    ensures (q + 1) * u == q * u + u
  {
  }

  lemma NearerOf(n: int, u: int, low: int, r: int, other: int)
    requires n == low + r && 0 <= r < u && (other <= low || low + u <= other)
    ensures 2 * r >= u ==> 2 * Abs(low + u - n) <= u && Abs(low + u - n) <= Abs(other - n)
    ensures 2 * r <= u ==> 2 * Abs(low - n) <= u && Abs(low - n) <= Abs(other - n)
  {
  }

  lemma MultipleOf(q: nat, u: nat)
    requires u >= 1
    ensures (q * u) % u == 0
  {
    if q > 0 {
      MultipleOf(q - 1, u);
      assert q * u == (q - 1) * u + u;
      assert ((q - 1) * u + u) % u == ((q - 1) * u) % u by { AddOne((q - 1) * u, u); }
    }
  }

  lemma AddOne(a: nat, u: nat)
    requires u >= 1
    ensures (a + u) % u == a % u
  {
    var q := a / u;
    assert a == u * q + a % u;
    assert a + u == u * (q + 1) + a % u;
    DivisionIsUnique(a + u, u, q + 1, a % u);
  }

  lemma DivisionIsUnique(n: int, u: int, q: int, r: int)
    requires u >= 1 && n == u * q + r && 0 <= r < u
    ensures n / u == q && n % u == r
  {
    var q', r' := n / u, n % u;
    assert n == u * q' + r';
    if q > q' {
      ProductGap(u, q, q');
    } else if q < q' {
      ProductGap(u, q', q);
    }
  }

  lemma ProductGap(u: int, a: int, b: int)
    requires u >= 1 && a > b
    ensures u * a >= u * b + u
  {
    assert u * a == u * b + u * (a - b);
    assert u * (a - b) == u * (a - b - 1) + u;
  }

  lemma Scales(a: nat, b: nat, u: nat)
    requires a <= b
    ensures a * u <= b * u
  {
  }

  function Abs(x: int): nat {
    if x < 0 then -x else x
  }

  /** Nothing is lost exactly when the digits past the 28th are zero. */
  lemma Round28IsExact(n: nat)
    ensures Round28(n) == n <==> n % Unit(n) == 0
  {
    var _, _, _ := PartsOf(n, Unit(n));
  }

  /** A rounded number has at most 28 digits that matter: rounding it again changes nothing. */
  lemma Round28IsStable(n: nat)
    ensures Round28(Round28(n)) == Round28(n)
  {
    if Digits(n) > PRECISION {
      var d := Digits(n);
      var u := Unit(n);
      var m := Round28(n);
      Round28IsNearest(n, 0);
      Round28Bound(n, d);
      DigitsOfBound(m, d);
      if Digits(m) <= PRECISION {
        Round28IsExact(m);
      } else if Digits(m) <= d {
        // A smaller unit divides the unit the number is a multiple of.
        var e := d - Digits(m);
        Pow10Adds(Digits(m) - PRECISION, e);
        Divides(m, Unit(m), Pow10(e));
        Round28IsExact(m);
      } else {
        // Rounded up to the next power of ten.
        DigitsBound(m);
        assert m == Pow10(d);
        Pow10Adds(d - 1, 1);
        Pow10Adds(PRECISION, d - PRECISION);
        NextPower(m, d);
        Round28IsExact(m);
      }
    } else {
      Round28IsExact(n);
    }
  }

  lemma NextPower(m: nat, d: nat)
    requires m == Pow10(d) && Digits(m) == d + 1 && d > PRECISION
    ensures m % Unit(m) == 0
  {
    Pow10Adds(PRECISION - 1, d + 1 - PRECISION);
    assert m == Pow10(PRECISION - 1) * Unit(m);
    MultipleOf(Pow10(PRECISION - 1), Unit(m));
  }

  lemma Divides(m: nat, a: nat, b: nat)
    requires a >= 1 && b >= 1 && m % (a * b) == 0
    ensures m % a == 0
  {
    var q := m / (a * b);
    assert m == (a * b) * q;
    assert m == (q * b) * a;
    MultipleOf(q * b, a);
  }

  lemma RoundedUnder(n: nat, u: nat, k: nat)
    requires u >= 1 && n < k * u
    ensures RoundTo(n, u) <= k * u
  {
    var q, low, r := PartsOf(n, u);
    Multiples(q, k, u);
  }

  /** Rounding can carry into one more digit, never beyond that power of ten. */
  lemma Round28Bound(n: nat, d: nat)
    requires Digits(n) <= d
    ensures Round28(n) <= Pow10(d)
  {
    DigitsBound(n);
    Pow10Grows(Digits(n), d);
    if Digits(n) > PRECISION {
      WideBound(n, PRECISION);
    } else {
      MultipleOf(n, 1);
    }
  }

  lemma WideBound(n: nat, kept: nat)
    requires kept == PRECISION < Digits(n)
    ensures Round28(n) <= Pow10(Digits(n))
  {
    DigitsBound(n);
    Pow10Adds(kept, Digits(n) - kept);
    RoundedUnder(n, Unit(n), Pow10(kept));
  }

  lemma DigitsOfBound(m: nat, d: nat)
    requires m <= Pow10(d) && d >= 1
    ensures Digits(m) <= d + 1
    ensures Digits(m) == d + 1 ==> m == Pow10(d)
  {
    DigitsBound(m);
    if Digits(m) >= d + 1 {
      Pow10Grows(d, Digits(m) - 1);
      Pow10Grows(if Digits(m) >= d + 2 then d + 1 else d, Digits(m) - 1);
    }
  }

  /** Decimals of at most 9, 18 and 38 digits fit 4, 8 and 16 signed bytes, rounding included. */
  lemma DecimalsFit(n: int, digits: nat)
    requires Abs(n) <= Pow10(digits) && digits <= 38
    ensures digits <= 9 ==> ToSigned(n, 4).Some?
    ensures digits <= 18 ==> ToSigned(n, 8).Some?
    ensures ToSigned(n, 16).Some?
  {
    Powers();
    Pow10Values();
    if digits <= 9 {
      Pow10Grows(digits, 9);
    }
    if digits <= 18 {
      Pow10Grows(digits, 18);
    }
    Pow10Grows(digits, 38);
  }

  lemma Pow10Values()
    ensures Pow10(9) == 1_000_000_000 && Pow10(18) == 1_000_000_000_000_000_000
    ensures Pow10(38) == 100_000_000_000_000_000_000_000_000_000_000_000_000
  {
    assert Pow10(3) == 1000;
    Pow10Adds(3, 3);
    Pow10Adds(6, 3);
    Pow10Adds(9, 9);
    Pow10Adds(18, 18);
    Pow10Adds(36, 2);
  }
}
