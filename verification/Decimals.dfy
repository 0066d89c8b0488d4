/** The decimal division of the market-buy branch: `Div` rounds to 16 places, halves away from
    zero, and `Truncate` then drops the places below the base scale. What that buys is compared with
    what the funds can pay for, in ticks, for all funds and prices. */
module Decimals {

  function Min(a: int, b: int): int { if a < b then a else b }

  function Max(a: int, b: int): int { if a < b then b else a }

  function Abs(a: int): nat { if a < 0 then -a else a }

  /** a / b rounded to the nearest integer, halves away from zero. */
  function RoundedQuotient(a: int, b: int): int
    requires b != 0
  {
    var q := (2 * Abs(a) + Abs(b)) / (2 * Abs(b));
    if (a < 0) == (b < 0) then q else -q
  }

  /** a / k with the fraction dropped, as `Truncate` does. */
  function TruncatedQuotient(a: int, k: int): int
    requires k > 0
  {
    if a >= 0 then a / k else -((-a) / k)
  }

  /** Base ticks that `funds` buy at `price`, where `gap` is 10^(16 - BaseScale). */
  function BuyableSize(funds: int, price: int, gap: int): int
    requires price != 0 && gap > 0
  {
    TruncatedQuotient(RoundedQuotient(funds * gap, price), gap)
  }

  lemma MulGap(d: int, m: int)
    requires m > 0
    ensures d >= 1 ==> d * m >= m
    ensures d <= -1 ==> d * m <= -m
  {
    if d >= 1 {
      assert (d - 1) * m >= 0;
    } else if d <= -1 {
      assert (-d - 1) * m >= 0;
    }
  }

  lemma DivUnique(a: int, m: int, q: int, r: int)
    requires m > 0 && 0 <= r < m && a == q * m + r
    ensures a / m == q && a % m == r
  {
    var d := a / m - q;
    assert a == (a / m) * m + a % m;
    assert d * m == (a / m) * m - q * m;
    MulGap(d, m);
  }

  /** Rounding n * price + r over price leaves the whole part alone. */
  lemma RoundWholePart(n: int, r: int, price: int, gap: int)
    requires price > 0
    ensures (2 * ((n * price + r) * gap) + price) / (2 * price)
            == n * gap + (2 * (r * gap) + price) / (2 * price)
  {
    var c, m := 2 * (r * gap) + price, 2 * price;
    var q, s := c / m, c % m;
    assert c == q * m + s;
    var a := 2 * ((n * price + r) * gap) + price;
    assert (n * price + r) * gap == n * price * gap + r * gap;
    assert n * gap * m == 2 * (n * price * gap);
    assert a == n * gap * m + c;
    assert (n * gap + q) * m == n * gap * m + q * m;
    DivUnique(a, m, n * gap + q, s);
  }

  /** A remainder rounds up to a whole tick exactly when it is within half a division unit of it. */
  lemma RoundRemainder(r: int, price: int, gap: int) returns (q: int)
    requires 0 <= r < price && gap > 0
    ensures q == (2 * (r * gap) + price) / (2 * price) && 0 <= q <= gap
    ensures q < gap <==> price < 2 * gap * (price - r)
  {
    var c, m := 2 * (r * gap) + price, 2 * price;
    q := c / m;
    assert c == q * m + c % m;
    assert r * gap >= 0;
    assert (price - r) * gap == price * gap - r * gap;
    assert 2 * gap * (price - r) == 2 * ((price - r) * gap);
    assert gap * m == 2 * (price * gap);
    MulGap(price - r, gap);
    MulGap(q - gap, m);
    MulGap(gap - q, m);
    assert (q - gap) * m == q * m - gap * m;
    assert (gap - q) * m == gap * m - q * m;
    MulGap(q, m);
  }

  /** The exact error of rounding before truncating: the engine buys the affordable size, or
      one tick more when the left-over funds are within half a division unit of a full tick. */
  lemma BuyableSizeExact(funds: int, price: int, gap: int)
    requires funds >= 0 && price > 0 && gap > 0
    ensures BuyableSize(funds, price, gap)
            == funds / price + if price < 2 * gap * (price - funds % price) then 0 else 1
  {
    hide RoundedQuotient, TruncatedQuotient;
    var n, r := funds / price, funds % price;
    assert funds == n * price + r;
    RoundWholePart(n, r, price, gap);
    var q := RoundRemainder(r, price, gap);
    MulNonNegative(funds, gap);
    RoundedPositive(funds * gap, price);
    MulNonNegative(n, gap);
    TruncatedWhole(n, q, gap);
  }

  lemma RoundedPositive(a: int, b: int)
    requires a >= 0 && b > 0
    ensures RoundedQuotient(a, b) == (2 * a + b) / (2 * b)
  {
  }

  /** Truncating n whole ticks and q of `gap` parts of one. */
  lemma TruncatedWhole(n: int, q: int, gap: int)
    requires n >= 0 && 0 <= q <= gap && gap > 0
    ensures TruncatedQuotient(n * gap + q, gap) == if q < gap then n else n + 1
  {
    MulNonNegative(n, gap);
    if q < gap {
      DivUnique(n * gap + q, gap, n, q);
    } else {
      assert n * gap + q == (n + 1) * gap;
      DivUnique(n * gap + q, gap, n + 1, 0);
    }
  }

  lemma MulNonNegative(a: int, b: int)
    requires a >= 0 && b >= 0
    ensures a * b >= 0
  {
  }

  lemma MulAtLeast(d: int, m: int)
    requires d >= 1 && m >= 0
    ensures d * m >= m
  {
    MulNonNegative(d - 1, m);
    assert (d - 1) * m == d * m - m;
  }

  /** The engine buys the affordable size at `price`, whatever the funds, exactly when the price
      is below twice the division unit counted in base ticks. */
  lemma BuyableSizeBound(price: int, gap: int)
    requires price > 0 && gap > 0
    ensures (forall funds: int :: funds >= 0 ==> BuyableSize(funds, price, gap) == funds / price)
            <==> price < 2 * gap
  {
    if price < 2 * gap {
      forall funds: int | funds >= 0 ensures BuyableSize(funds, price, gap) == funds / price {
        BuyableSizeWithin(funds, price, gap);
      }
    } else {
      OverspendWitness(price, gap);
    }
  }

  lemma BuyableSizeWithin(funds: int, price: int, gap: int)
    requires funds >= 0 && 0 < price < 2 * gap
    ensures BuyableSize(funds, price, gap) == funds / price
  {
    BuyableSizeExact(funds, price, gap);
    NoRoundUp(funds % price, price, gap);
  }

  lemma NoRoundUp(r: int, price: int, gap: int)
    requires 0 <= r < price < 2 * gap
    ensures price < 2 * gap * (price - r)
  {
    var d := price - r;
    MulGap(d, 2 * gap);
    assert 2 * gap * d == d * (2 * gap);
  }

  /** The affordable size n leaves less than one tick's price, and so does any size up to it cost
      no more than the funds. */
  lemma AffordableSize(funds: int, price: int, size: int)
    requires funds >= 0 && price > 0 && size <= funds / price
    ensures 0 <= funds / price && 0 <= funds - size * price
    ensures size == funds / price ==> funds - size * price < price
  {
    var n := funds / price;
    assert funds == n * price + funds % price;
    MulNonNegative(n - size, price);
    assert (n - size) * price == n * price - size * price;
  }

  /** One funds tick short of a base tick buys the whole base tick once the bound is passed. */
  lemma OverspendWitness(price: int, gap: int)
    requires 0 < 2 * gap <= price
    ensures BuyableSize(price - 1, price, gap) == 1 && (price - 1) / price == 0
  {
    DivUnique(price - 1, price, 0, price - 1);
    BuyableSizeExact(price - 1, price, gap);
  }
}
