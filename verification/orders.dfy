/** The order record and its derived monetary values (OrderRecord.cs).
    .NET `decimal` is modelled as exact `real`: the 28-digit precision of
    `decimal` is not modelled. */
module Orders {

  /** A value is a whole number of cents: it has at most two fractional digits. */
  predicate IsCents(x: real) {
    (x * 100.0).Floor as real == x * 100.0
  }

  /** Cents counted by an integer are a whole number of cents. */
  lemma CentsOfInt(n: int)
    ensures IsCents(n as real / 100.0)
  {
    assert (n as real / 100.0) * 100.0 == n as real;
  }

  /** Rounding a non-negative value half up to cents: the result is whole
      cents, non-negative, and at most half a cent away. */
  lemma HalfUpFacts(a: real)
    requires a >= 0.0
    ensures var n := (a * 100.0 + 0.5).Floor;
            n >= 0 && IsCents(n as real / 100.0) &&
            -0.005 < n as real / 100.0 - a <= 0.005
  {
    var n := (a * 100.0 + 0.5).Floor;
    assert -0.5 < n as real - a * 100.0 <= 0.5;
    CentsOfInt(n);
  }

  /** `Math.Round(x, 2, MidpointRounding.AwayFromZero)` on an exact decimal:
      the nearest whole number of cents, a midpoint going away from zero. */
  function RoundCentsAwayFromZero(x: real): (r: real)
    ensures IsCents(r)
    ensures -0.005 <= r - x <= 0.005
    ensures x >= 0.0 ==> r >= 0.0
    ensures x <= 0.0 ==> r <= 0.0
  {
    if x >= 0.0 then
      HalfUpFacts(x);
      ((x * 100.0 + 0.5).Floor as real) / 100.0
    else
      var n := ((-x) * 100.0 + 0.5).Floor;
      HalfUpFacts(-x);
      CentsOfInt(-n);
      assert -(n as real / 100.0) == (-n) as real / 100.0;
      -(n as real / 100.0)
  }

  /** Rounding is symmetric: a negative value rounds to the negation of
      rounding its absolute value. */
  lemma RoundIsOdd(x: real)
    ensures RoundCentsAwayFromZero(-x) == -RoundCentsAwayFromZero(x)
  {
    if x == 0.0 {
    } else if x > 0.0 {
      assert -(-x) == x;
    }
  }

  /** A midpoint (a value exactly half a cent from two neighbouring cents)
      rounds away from zero. */
  lemma RoundMidpointAwayFromZero(x: real)
    requires IsCents(x + 0.005)
    ensures x >= 0.0 ==> RoundCentsAwayFromZero(x) == x + 0.005
    ensures x < 0.0 ==> RoundCentsAwayFromZero(x) == x - 0.005
  {
    var m := ((x + 0.005) * 100.0).Floor;
    assert m as real == x * 100.0 + 0.5;
    if x >= 0.0 {
      assert (x * 100.0 + 0.5).Floor == m;
    } else {
      assert (-x) * 100.0 + 0.5 == (1 - m) as real;
      assert ((-x) * 100.0 + 0.5).Floor == 1 - m;
      assert ((1 - m) as real) / 100.0 == 0.005 - x;
    }
  }

  /** Rounding never reorders values. */
  lemma RoundIsMonotone(x: real, y: real)
    requires x <= y
    ensures RoundCentsAwayFromZero(x) <= RoundCentsAwayFromZero(y)
  {
    if 0.0 <= x {
      assert (x * 100.0 + 0.5).Floor <= (y * 100.0 + 0.5).Floor;
    } else if y < 0.0 {
      assert ((-y) * 100.0 + 0.5).Floor <= ((-x) * 100.0 + 0.5).Floor;
    }
  }

  /** A whole number of cents is left unchanged by rounding. */
  lemma RoundKeepsCents(x: real)
    requires IsCents(x)
    ensures RoundCentsAwayFromZero(x) == x
  {
    if x >= 0.0 {
      assert (x * 100.0 + 0.5).Floor == (x * 100.0).Floor;
    } else {
      assert (-x) * 100.0 == -(x * 100.0);
      assert ((-x) * 100.0 + 0.5).Floor == -((x * 100.0).Floor);
    }
  }

  /** No whole number of cents is closer to `x` than its rounding. */
  lemma RoundIsNearestCent(x: real, k: int)
    ensures var r := RoundCentsAwayFromZero(x);
            var c := k as real / 100.0;
            (if x >= r then x - r else r - x) <= (if x >= c then x - c else c - x)
  {
    var r := RoundCentsAwayFromZero(x);
    var c := k as real / 100.0;
    var n := r * 100.0;
    assert n == n.Floor as real;
    if c < r {
      assert k <= n.Floor - 1;
      assert c <= r - 0.01;
    } else if c > r {
      assert k >= n.Floor + 1;
      assert c >= r + 0.01;
    }
  }

  /** Scaling a non-negative amount by a factor in [0, 1] keeps it between
      zero and the amount. */
  lemma ScaleDown(t: real, f: real)
    requires t >= 0.0 && 0.0 <= f <= 1.0
    ensures 0.0 <= t * f <= t
  {
    assert t * (1.0 - f) >= 0.0;
  }

  /** One order line as read from the CSV file. The six fields are set once
      (init-only properties); the four derived values are computed on demand. */
  datatype OrderRecord = OrderRecord(
    id: int,
    articleName: string,
    quantity: int,
    unitPrice: real,
    percentageDiscount: real,
    buyer: string)
  {
    /** Quantity times unit price, exact. */
    function TotalWithoutDiscount(): (t: real)
      ensures quantity >= 0 && unitPrice >= 0.0 ==> t >= 0.0
      ensures quantity == 0 || unitPrice == 0.0 ==> t == 0.0
    {
      quantity as real * unitPrice
    }

    /** `1 - p/100`, clamped to [0, 1]. */
    function DiscountFactor(): (f: real)
      ensures 0.0 <= f <= 1.0
      ensures 0.0 <= percentageDiscount <= 100.0 ==> f == 1.0 - percentageDiscount / 100.0
      ensures percentageDiscount >= 100.0 ==> f == 0.0
      ensures percentageDiscount <= 0.0 ==> f == 1.0
    {
      var factor := 1.0 - percentageDiscount / 100.0;
      var factor := if factor < 0.0 then 0.0 else factor;
      if factor > 1.0 then 1.0 else factor
    }

    /** The discounted total, rounded to cents, midpoints away from zero. */
    function TotalWithDiscount(): (r: real)
      ensures IsCents(r)
      ensures -0.005 <= r - TotalWithoutDiscount() * DiscountFactor() <= 0.005
      ensures quantity >= 0 && unitPrice >= 0.0 ==> 0.0 <= r <= TotalWithoutDiscount() + 0.005
      ensures quantity >= 0 && unitPrice >= 0.0 && IsCents(TotalWithoutDiscount()) ==>
        r <= TotalWithoutDiscount()
      ensures percentageDiscount >= 100.0 ==> r == 0.0
    {
      DiscountedFacts(TotalWithoutDiscount(), DiscountFactor());
      RoundCentsAwayFromZero(TotalWithoutDiscount() * DiscountFactor())
    }

    /** What the discount takes off the undiscounted total. With non-negative
        quantity and price it is at least -0.005, and at least 0 when the
        undiscounted total is a whole number of cents. */
    function DiscountValue(): (d: real)
      ensures d + TotalWithDiscount() == TotalWithoutDiscount()
      ensures quantity >= 0 && unitPrice >= 0.0 ==> -0.005 <= d <= TotalWithoutDiscount()
      ensures quantity >= 0 && unitPrice >= 0.0 && IsCents(TotalWithoutDiscount()) ==> d >= 0.0
      ensures percentageDiscount >= 100.0 ==> d == TotalWithoutDiscount()
    {
      TotalWithoutDiscount() - TotalWithDiscount()
    }
  }

  /** What rounding an amount scaled by a factor in [0, 1] gives. */
  lemma DiscountedFacts(t: real, f: real)
    requires 0.0 <= f <= 1.0
    ensures var r := RoundCentsAwayFromZero(t * f);
            (t >= 0.0 ==> 0.0 <= r <= t + 0.005) &&
            (t >= 0.0 && IsCents(t) ==> r <= t) &&
            (f == 0.0 ==> r == 0.0)
  {
    if t >= 0.0 {
      ScaleDown(t, f);
      RoundBelow(t * f, t);
    }
    if f == 0.0 {
      assert t * f == 0.0;
    }
  }

  /** Rounding a value between zero and an amount stays between zero and
      half a cent above the amount, and below the amount when that is a whole
      number of cents. */
  lemma RoundBelow(y: real, t: real)
    requires 0.0 <= y <= t
    ensures 0.0 <= RoundCentsAwayFromZero(y) <= t + 0.005
    ensures IsCents(t) ==> RoundCentsAwayFromZero(y) <= t
  {
    if IsCents(t) {
      RoundIsMonotone(y, t);
      RoundKeepsCents(t);
    }
  }

  /** The half-cent case: 3 x 10.005 = 30.015 rounds up to 30.02, so the
      discount value of an undiscounted order is negative. */
  lemma HalfCentPriceGivesNegativeDiscountValue()
    ensures var o := OrderRecord(1, "Pen", 3, 10.005, 0.0, "Ada");
            o.TotalWithoutDiscount() == 30.015 &&
            o.TotalWithDiscount() == 30.02 &&
            o.DiscountValue() == -0.005
  {
    var o := OrderRecord(1, "Pen", 3, 10.005, 0.0, "Ada");
    assert o.DiscountFactor() == 1.0;
    assert 30.015 * 100.0 + 0.5 == 3002.0;
  }
}
