/**
  The decimal text of an exact rational: as many digits as it needs if it has a finite expansion, eighteen
  otherwise, or as many as its type prescribes. The text is modelled as its digits, a whole number, the number of
  digits behind the point, and its sign, which a negative number keeps even where its digits are all zero.
 */
module DecimalText {
  import opened Options

  /** A fraction with a positive denominator. */
  datatype Rational = Rational(num: int, den: int)

  predicate IsRational(r: Rational) {
    r.den > 0
  }

  /** The number `digits / 10^places`, and whether a minus sign is written. */
  datatype Decimal = Decimal(digits: int, places: nat, minus: bool)

  /** The sign that is written is that of the digits, where these have one. */
  predicate SignAgrees(d: Decimal) {
    (d.digits < 0 ==> d.minus) && (d.digits > 0 ==> !d.minus)
  }

  function Pow(b: int, e: nat): (r: int)
    ensures b > 0 ==> r > 0
  {
    if e == 0 then 1 else b * Pow(b, e - 1)
  }

  lemma Regroup(a: int, b: int, c: int)
    ensures a * (b * c) == a * b * c
  {
  }

  lemma Rotate(w: int, p: int, q: int)
    ensures w * (p * q) == (p * w) * q == (w * q) * p
  {
  }

  lemma {:induction false} PowAdd(b: int, d: nat, e: nat)
    ensures Pow(b, d + e) == Pow(b, d) * Pow(b, e)
  {
    if d > 0 {
      PowAdd(b, d - 1, e);
      assert Pow(b, d + e) == b * Pow(b, d - 1 + e) && Pow(b, d) == b * Pow(b, d - 1);
      hide Pow;
      Regroup(b, Pow(b, d - 1), Pow(b, e));
    }
  }

  lemma TenTimes(a: int, b: int)
    ensures 10 * (a * b) == (2 * a) * (5 * b)
  {
  }

  lemma {:induction false} TenIsTwoTimesFive(e: nat)
    ensures Pow(10, e) == Pow(2, e) * Pow(5, e)
  {
    if e > 0 {
      TenIsTwoTimesFive(e - 1);
      var a, b := Pow(2, e - 1), Pow(5, e - 1);
      assert Pow(2, e) == 2 * a && Pow(5, e) == 5 * b && Pow(10, e) == 10 * Pow(10, e - 1);
      hide Pow;
      TenTimes(a, b);
    }
  }

  // ---------- Rounding ----------

  /** The nearest whole number, halves away from zero. */
  function Nearest(num: int, den: int): int
    requires den > 0
  {
    if num >= 0 then (2 * num + den) / (2 * den) else -((-2 * num + den) / (2 * den))
  }

  lemma NearestIsNearest(num: int, den: int)
    requires den > 0
    ensures -den <= 2 * (Nearest(num, den) * den - num) <= den
    ensures if num >= 0 then -den < 2 * (Nearest(num, den) * den - num) else 2 * (Nearest(num, den) * den - num) < den
  {
    var m := if num >= 0 then num else -num;
    var q, r := (2 * m + den) / (2 * den), (2 * m + den) % (2 * den);
    assert 2 * m + den == q * (2 * den) + r && 0 <= r < 2 * den;
    assert q * (2 * den) == 2 * (q * den);
    if num < 0 {
      assert Nearest(num, den) * den == -(q * den) by { assert (-q) * den == -(q * den); }
    }
  }

  /** A number that is whole is not changed. */
  lemma NearestOfWhole(n: int, den: int)
    requires den > 0
    ensures Nearest(n * den, den) == n
  {
    NearestIsNearest(n * den, den);
    var k := Nearest(n * den, den) - n;
    assert Nearest(n * den, den) * den - n * den == k * den by {
      assert (n + k) * den == n * den + k * den;
    }
    MultipleOf(k, den);
  }

  lemma MultipleOf(k: int, den: int)
    requires den > 0
    ensures k >= 1 ==> k * den >= den
    ensures k <= -1 ==> k * den <= -den
  {
    if k >= 1 { assert (k - 1) * den >= 0; }
    if k <= -1 { assert (k + 1) * den <= 0; }
  }

  // ---------- The three cases ----------

  /** The value of the decimal is within half a unit of its last place of the number; a half is rounded away from zero. */
  ghost predicate Approximates(d: Decimal, r: Rational)
    requires IsRational(r)
  {
    var error := 2 * (d.digits * r.den - r.num * Pow(10, d.places));
    -r.den <= error <= r.den && if r.num >= 0 then -r.den < error else error < r.den
  }

  ghost predicate Equals(d: Decimal, r: Rational)
    requires IsRational(r)
  {
    d.digits * r.den == r.num * Pow(10, d.places)
  }

  /** The text with the given number of digits behind the point. */
  function Fixed(r: Rational, places: nat): Decimal
    requires IsRational(r)
  {
    Decimal(Nearest(r.num * Pow(10, places), r.den), places, r.num < 0)
  }

  lemma FixedApproximates(r: Rational, places: nat)
    requires IsRational(r)
    ensures Approximates(Fixed(r, places), r)
  {
    NearestIsNearest(r.num * Pow(10, places), r.den);
  }

  lemma FixedSign(r: Rational, places: nat)
    requires IsRational(r)
    ensures SignAgrees(Fixed(r, places))
  {
    var n := r.num * Pow(10, places);
    assert (r.num < 0 ==> n <= 0) && (r.num >= 0 ==> n >= 0);
    NearestSign(n, r.den);
  }

  lemma NearestSign(num: int, den: int)
    requires den > 0
    ensures (num >= 0 ==> Nearest(num, den) >= 0) && (num <= 0 ==> Nearest(num, den) <= 0)
  {
  }

  /** Drops the zeros at the end of the fraction, and the point with the last digit behind it. */
  function Trimmed(d: Decimal): (t: Decimal)
    ensures t.places <= d.places && t.minus == d.minus && (SignAgrees(d) ==> SignAgrees(t))
    ensures t.places > 0 ==> t.digits % 10 != 0
    ensures d.digits == t.digits * Pow(10, d.places - t.places)
    decreases d.places
  {
    if d.places > 0 && d.digits % 10 == 0 then
      var t := Trimmed(Decimal(d.digits / 10, d.places - 1, d.minus));
      assert Pow(10, d.places - t.places) == 10 * Pow(10, d.places - 1 - t.places);
      assert d.digits == 10 * (d.digits / 10);
      assert 10 * (t.digits * Pow(10, d.places - 1 - t.places)) == t.digits * (10 * Pow(10, d.places - 1 - t.places));
      t
    else d
  }

  /** Trimming does not change the number. */
  lemma TrimmedIsSame(d: Decimal, r: Rational)
    requires IsRational(r)
    ensures Equals(d, r) <==> Equals(Trimmed(d), r)
  {
    var t := Trimmed(d);
    var k := d.places - t.places;
    PowAdd(10, t.places, k);
    SameNumber(d.digits, r.den, r.num, Pow(10, d.places), t.digits, Pow(10, t.places), Pow(10, k));
  }

  lemma SameNumber(digits: int, den: int, num: int, unit: int, digits': int, unit': int, z: int)
    requires digits == digits' * z && unit == unit' * z && z > 0
    ensures digits * den == num * unit <==> digits' * den == num * unit'
  {
    assert digits * den == (digits' * den) * z by { Rotate(den, digits', z); }
    assert num * unit == (num * unit') * z by { Regroup(num, unit', z); }
    Cancels(digits' * den, num * unit', z);
  }

  lemma Cancels(x: int, y: int, z: int)
    requires z > 0
    ensures x * z == y * z <==> x == y
  {
    if x * z == y * z {
      assert (x - y) * z == 0;
    }
  }

  /** The denominator has no prime factors but 2 and 5. */
  predicate OnlyTwosAndFives(n: int)
    requires n > 0
  {
    n == 1 || (n % 2 == 0 && OnlyTwosAndFives(n / 2)) || (n % 5 == 0 && OnlyTwosAndFives(n / 5))
  }

  lemma {:induction false} DividingKeepsFactors(n: int, p: int)
    requires n > 0 && (p == 2 || p == 5)
    ensures OnlyTwosAndFives(p * n) <==> OnlyTwosAndFives(n)
    decreases n
  {
    if p == 2 {
      if OnlyTwosAndFives(2 * n) && !OnlyTwosAndFives(n) {
        assert n % 5 == 0 && (2 * n) / 5 == 2 * (n / 5);
        DividingKeepsFactors(n / 5, 2);
      }
    } else {
      if OnlyTwosAndFives(5 * n) && !OnlyTwosAndFives(n) {
        assert n % 2 == 0 && (5 * n) / 2 == 5 * (n / 2);
        DividingKeepsFactors(n / 2, 5);
      }
    }
  }

  // ---------- The text of an aggregate ----------

  /** The number of digits the loops decide on. */
  ghost predicate Counted(den: int, twos: nat, fives: nat, rest: int) {
    && den == Pow(2, twos) * Pow(5, fives) * rest && rest > 0
    && rest % 2 != 0 && rest % 5 != 0
    && (rest == 1 <==> den > 0 && OnlyTwosAndFives(den))
  }

  /** Moves one factor 2 or 5 from the rest to the count. */
  lemma OneMoreFactor(whole: int, p: int, k: nat, rest: int)
    requires (p == 2 || p == 5) && rest > 0 && rest % p == 0 && whole == Pow(p, k) * rest
    ensures rest / p > 0 && whole == Pow(p, k + 1) * (rest / p)
    ensures OnlyTwosAndFives(rest / p) <==> OnlyTwosAndFives(rest)
    ensures rest % 2 != 0 ==> (rest / p) % 2 != 0
  {
    var q, w := rest / p, Pow(p, k);
    assert rest == p * q && Pow(p, k + 1) == p * w;
    DividingKeepsFactors(q, p);
    hide Pow, OnlyTwosAndFives;
    Rotate(w, p, q);
  }

  method CountFactors(den: int) returns (twos: nat, fives: nat, rest: int)
    requires den > 0
    ensures Counted(den, twos, fives, rest)
  {
    hide OnlyTwosAndFives, Pow;
    rest, twos, fives := den, 0, 0;
    assert Pow(2, 0) * rest == den by { NoFactors(2, rest); }
    while rest % 2 == 0
      invariant rest > 0 && den == Pow(2, twos) * rest
      invariant OnlyTwosAndFives(rest) <==> OnlyTwosAndFives(den)
      decreases rest
    {
      OneMoreFactor(den, 2, twos, rest);
      rest := rest / 2;
      twos := twos + 1;
    }
    ghost var odd := rest;
    NoFactors(5, rest);
    while rest % 5 == 0
      invariant rest > 0 && rest % 2 != 0 && odd == Pow(5, fives) * rest
      invariant OnlyTwosAndFives(rest) <==> OnlyTwosAndFives(den)
      decreases rest
    {
      OneMoreFactor(odd, 5, fives, rest);
      rest := rest / 5;
      fives := fives + 1;
    }
    Regroup(Pow(2, twos), Pow(5, fives), rest);
    OddRest(rest);
  }

  lemma NoFactors(p: int, rest: int)
    ensures Pow(p, 0) * rest == rest
  {
  }

  lemma OddRest(rest: int)
    requires rest > 0 && rest % 2 != 0 && rest % 5 != 0
    ensures rest == 1 <==> OnlyTwosAndFives(rest)
  {
  }

  const FALLBACK_PLACES: nat := 18

  function Max(a: nat, b: nat): nat {
    if a > b then a else b
  }

  /** With as many places as the larger count of factors, a finite expansion is exact. */
  lemma FixedIsExact(r: Rational, twos: nat, fives: nat)
    requires IsRational(r) && r.den == Pow(2, twos) * Pow(5, fives)
    ensures Equals(Fixed(r, Max(twos, fives)), r)
  {
    var n := Max(twos, fives);
    TenIsTwoTimesFive(n);
    PowAdd(2, twos, n - twos);
    PowAdd(5, fives, n - fives);
    var a, b, c, d := Pow(2, twos), Pow(5, fives), Pow(2, n - twos), Pow(5, n - fives);
    Rearranged(r.num, a, b, c, d);
    NearestOfWhole(r.num * (c * d), r.den);
  }

  lemma Rearranged(num: int, a: int, b: int, c: int, d: int)
    ensures num * ((a * c) * (b * d)) == (num * (c * d)) * (a * b)
  {
    assert (a * c) * (b * d) == (c * d) * (a * b) by {
      assert (a * c) * (b * d) == a * (c * (b * d)) == a * (b * (c * d));
    }
    Regroup(num, c * d, a * b);
  }

  /** Rounding to a multiple of the unit stays within half a unit. */
  lemma RoundedToUnit(r: Rational, unit: int)
    requires IsRational(r) && unit > 0
    ensures r.den * unit > 0
    ensures var digits := Nearest(r.num, r.den * unit) * unit;
            && digits % unit == 0 && -unit * r.den <= 2 * (digits * r.den - r.num) <= unit * r.den
            && if r.num >= 0 then -unit * r.den < 2 * (digits * r.den - r.num) else 2 * (digits * r.den - r.num) < unit * r.den
  {
    var rounded := Nearest(r.num, r.den * unit);
    NearestIsNearest(r.num, r.den * unit);
    hide Nearest;
    assert rounded * (r.den * unit) == (rounded * unit) * r.den;
    ModOfMultiple(rounded, unit);
  }

  /** Without a prescribed scale, or with one of zero or more digits, or of a negative number of digits. */
  method AggregateDecimalString(r: Rational, scale: Option<int>) returns (text: Decimal)
    requires IsRational(r)
    ensures scale.None? && OnlyTwosAndFives(r.den) ==>
              Equals(text, r) && (text.places > 0 ==> text.digits % 10 != 0)
    ensures scale.None? && !OnlyTwosAndFives(r.den) ==>
              exists d :: Approximates(d, r) && d.places == 18 && text == Trimmed(d)
    ensures scale.Some? && scale.value >= 0 ==> text.places == scale.value && Approximates(text, r)
    ensures scale.Some? && scale.value < 0 ==>
              var unit := Pow(10, -scale.value);
              && text.places == 0 && text.digits % unit == 0
              && -unit * r.den <= 2 * (text.digits * r.den - r.num) <= unit * r.den
              && if r.num >= 0 then -unit * r.den < 2 * (text.digits * r.den - r.num)
                 else 2 * (text.digits * r.den - r.num) < unit * r.den
    ensures SignAgrees(text)
    ensures text.minus <==> if scale.Some? && scale.value < 0 then text.digits < 0 else r.num < 0
  {
    if scale.Some? {
      if scale.value >= 0 {
        FixedApproximates(r, scale.value);
        FixedSign(r, scale.value);
        return Fixed(r, scale.value);
      }
      var factor := Pow(10, -scale.value);
      RoundedToUnit(r, factor);
      var digits := Nearest(r.num, r.den * factor) * factor;
      return Decimal(digits, 0, digits < 0);
    }
    var twos, fives, rest := CountFactors(r.den);
    var precision := Max(twos, fives);
    if rest != 1 {
      precision := FALLBACK_PLACES;
    }
    text := Trimmed(Fixed(r, precision));
    FixedSign(r, precision);
    if rest == 1 {
      assert r.den == Pow(2, twos) * Pow(5, fives);
      FixedIsExact(r, twos, fives);
      TrimmedIsSame(Fixed(r, precision), r);
    } else {
      FixedApproximates(r, precision);
    }
  }

  lemma ModOfMultiple(a: int, m: int)
    requires m > 0
    ensures (a * m) % m == 0
  {
    var q, r := (a * m) / m, (a * m) % m;
    assert a * m == q * m + r;
    assert (a - q) * m == r;
    MultipleOf(a - q, m);
  }
}
