/**
 Price bands, platform fee, seller levels and discounts, with the bounds that
 hold of every price the marketplace can ever accept.
 */
module Pricing {
  import opened Domain

  const GLOBAL_MIN_PRICE: nat := 55_000
  const INIT_MAX_PRICE: nat := 100_000
  const U64_LIMIT: nat := 0x1_0000_0000_0000_0000

  // ---------- the permitted band ----------

  function MaxPrice(base: nat): nat {
    base * 126 / 100
  }

  function MinPrice(base: nat): nat {
    Max(GLOBAL_MIN_PRICE, MaxPrice(base) / 100)
  }

  function ValidatePrice(base: nat, newPrice: nat): Result<()> {
    Need(MinPrice(base) <= newPrice <= MaxPrice(base), BadRequest)
  }

  // What an etching fee contributes when a name has never been bought.
  function EtchingPrice(feeSats: nat): nat {
    Min(Max(feeSats * 10, GLOBAL_MIN_PRICE), INIT_MAX_PRICE)
  }

  // The band without rounding: at least the floor, at most 1.26 times the base,
  // and (rounded up) at least one hundredth of that maximum.
  lemma PriceAcceptedIff(base: nat, newPrice: nat)
    ensures ValidatePrice(base, newPrice).Success? <==>
      && newPrice >= GLOBAL_MIN_PRICE
      && newPrice * 100 <= base * 126
      && base * 126 < (newPrice + 1) * 10_000
  {
    var top := MaxPrice(base);
    assert top * 100 <= base * 126 < (top + 1) * 100;
    assert (top / 100) * 100 <= top < (top / 100 + 1) * 100;
  }

  lemma BandIsNonEmpty(base: nat)
    requires base >= GLOBAL_MIN_PRICE
    ensures MinPrice(base) <= MaxPrice(base)
    ensures ValidatePrice(base, MaxPrice(base)).Success?
    ensures ValidatePrice(base, MinPrice(base)).Success?
  {
    assert base * 126 / 100 >= base;
    var top := MaxPrice(base);
    assert top / 100 <= top;
  }

  // ---------- the growth bound ----------

  function Pow(b: nat, e: nat): nat {
    if e == 0 then 1 else b * Pow(b, e - 1)
  }

  // Products and quotients that appear in the state are recursive, so that
  // proofs about listings and records stay linear; the lemmas say what they are.
  function Times100(p: nat, n: nat): nat {
    if n == 0 then p else 100 * Times100(p, n - 1)
  }

  function Times126(p: nat, n: nat): nat {
    if n == 0 then p else 126 * Times126(p, n - 1)
  }

  // price <= 100000 * 1.26^trades, without fractions.
  ghost predicate WithinGrowth(price: nat, trades: nat) {
    Times100(price, trades) <= Times126(INIT_MAX_PRICE, trades)
  }

  lemma {:induction false} Times100Is(p: nat, n: nat)
    ensures Times100(p, n) == p * Pow(100, n)
  {
    if n > 0 {
      Times100Is(p, n - 1);
      assert 100 * (p * Pow(100, n - 1)) == p * (100 * Pow(100, n - 1));
    }
  }

  lemma {:induction false} Times126Is(p: nat, n: nat)
    ensures Times126(p, n) == p * Pow(126, n)
  {
    if n > 0 {
      Times126Is(p, n - 1);
      assert 126 * (p * Pow(126, n - 1)) == p * (126 * Pow(126, n - 1));
    }
  }

  lemma GrowthMeans(price: nat, trades: nat)
    ensures WithinGrowth(price, trades) <==> price * Pow(100, trades) <= INIT_MAX_PRICE * Pow(126, trades)
  {
    Times100Is(price, trades);
    Times126Is(INIT_MAX_PRICE, trades);
  }

  // The step on the powers themselves.
  lemma GrowthProduct(base: nat, newPrice: nat, h: nat, g: nat)
    requires base * h <= INIT_MAX_PRICE * g && newPrice * 100 <= base * 126
    ensures newPrice * (100 * h) <= INIT_MAX_PRICE * (126 * g)
  {
    calc {
      newPrice * (100 * h);
      (newPrice * 100) * h;
    <= { MulMono(newPrice * 100, base * 126, h); }
      (base * 126) * h;
      (base * h) * 126;
    <= { MulMono(base * h, INIT_MAX_PRICE * g, 126); }
      (INIT_MAX_PRICE * g) * 126;
      INIT_MAX_PRICE * (126 * g);
    }
  }

  lemma GrowthStep(base: nat, newPrice: nat, trades: nat)
    requires WithinGrowth(base, trades) && ValidatePrice(base, newPrice).Success?
    ensures WithinGrowth(newPrice, trades + 1)
  {
    GrowthMeans(base, trades);
    GrowthMeans(newPrice, trades + 1);
    PriceAcceptedIff(base, newPrice);
    GrowthProduct(base, newPrice, Pow(100, trades), Pow(126, trades));
  }

  lemma MulMono(a: nat, b: nat, c: nat)
    requires a <= b
    ensures a * c <= b * c
  {
  }

  lemma GrowthWeakens(price: nat, trades: nat)
    requires WithinGrowth(price, trades)
    ensures WithinGrowth(price, trades + 1)
  {
    var h, g := Pow(100, trades), Pow(126, trades);
    GrowthMeans(price, trades);
    GrowthMeans(price, trades + 1);
    calc {
      price * Pow(100, trades + 1);
      price * (100 * h);
      (price * h) * 100;
    <= { MulMono(price * h, INIT_MAX_PRICE * g, 100); }
      (INIT_MAX_PRICE * g) * 100;
    <=
      (INIT_MAX_PRICE * g) * 126;
      INIT_MAX_PRICE * Pow(126, trades + 1);
    }
  }

  lemma {:induction false} GrowthMonotone(price: nat, trades: nat, more: nat)
    requires trades <= more && WithinGrowth(price, trades)
    ensures WithinGrowth(price, more)
    decreases more - trades
  {
    if trades < more {
      GrowthWeakens(price, trades);
      GrowthMonotone(price, trades + 1, more);
    }
  }

  lemma StartWithinGrowth(price: nat)
    requires price <= INIT_MAX_PRICE
    ensures WithinGrowth(price, 0)
  {
  }

  // ---------- no u64 overflow for 120 trades ----------

  lemma {:induction false} PowSum(b: nat, m: nat, n: nat)
    ensures Pow(b, m + n) == Pow(b, m) * Pow(b, n)
  {
    if m > 0 {
      PowSum(b, m - 1, n);
      assert m + n - 1 == m - 1 + n;
      MulAssoc(b, Pow(b, m - 1), Pow(b, n));
    }
  }

  lemma MulAssoc(a: nat, b: nat, c: nat)
    ensures a * (b * c) == (a * b) * c
  {
  }

  lemma {:induction false} PowPositive(b: nat, e: nat)
    requires b > 0
    ensures Pow(b, e) > 0
  {
    if e > 0 {
      PowPositive(b, e - 1);
      assert b * Pow(b, e - 1) >= Pow(b, e - 1);
    }
  }

  // 126^10 <= 10.09 * 100^10
  lemma TenTrades()
    ensures 100 * Pow(126, 10) <= 1009 * Pow(100, 10)
  {
    assert Pow(126, 5) == 31757969376;
    assert Pow(100, 5) == 10000000000;
    PowSum(126, 5, 5);
    PowSum(100, 5, 5);
  }

  lemma {:induction false} TensOfTrades(tens: nat)
    ensures Pow(100, tens) * Pow(126, 10 * tens) <= Pow(1009, tens) * Pow(100, 10 * tens)
  {
    if tens > 0 {
      TensOfTrades(tens - 1);
      TenTrades();
      PowSum(126, 10, 10 * (tens - 1));
      PowSum(100, 10, 10 * (tens - 1));
      OneMoreTen(
        Pow(100, tens - 1), Pow(126, 10 * (tens - 1)), Pow(1009, tens - 1), Pow(100, 10 * (tens - 1)),
        Pow(126, 10), Pow(100, 10));
    }
  }

  lemma OneMoreTen(c: nat, g: nat, k: nat, h: nat, g10: nat, h10: nat)
    requires c * g <= k * h && 100 * g10 <= 1009 * h10
    ensures (100 * c) * (g10 * g) <= (1009 * k) * (h10 * h)
  {
    ProductMono(c * g, k * h, 100 * g10, 1009 * h10);
    Regroup(c, g, 100, g10);
    Regroup(k, h, 1009, h10);
  }

  lemma ProductMono(a: nat, b: nat, c: nat, d: nat)
    requires a <= b && c <= d
    ensures a * c <= b * d
  {
    MulMono(a, b, c);
    MulMono(c, d, b);
  }

  lemma Regroup(a: nat, b: nat, c: nat, d: nat)
    ensures (a * b) * (c * d) == (c * a) * (d * b)
  {
    calc {
      (a * b) * (c * d);
      a * (b * (c * d));
      a * (c * (b * d));
      (a * c) * (b * d);
    }
  }

  // If price is at most p * g / h and g / h is at most k / c, then price * c <= p * k.
  lemma ScaleThrough(price: nat, p: nat, g: nat, h: nat, c: nat, k: nat)
    requires h > 0 && price * h <= p * g && c * g <= k * h
    ensures price * c <= p * k
  {
    calc {
      (price * c) * h;
      (price * h) * c;
    <= { MulMono(price * h, p * g, c); }
      (p * g) * c;
      p * (c * g);
    <= { MulMono(c * g, k * h, p); }
      p * (k * h);
      (p * k) * h;
    }
    CancelMul(price * c, p * k, h);
  }

  lemma CancelMul(a: nat, b: nat, c: nat)
    requires c > 0 && a * c <= b * c
    ensures a <= b
  {
  }

  lemma TwelfthPowers()
    ensures Pow(100, 12) == 1000000000000000000000000
    ensures Pow(1009, 12) <= 1113700000000000000000000000000000000
  {
    PowSum(100, 6, 6);
    assert Pow(100, 6) == 1000000000000;
    PowSum(1009, 6, 6);
    assert Pow(1009, 3) == 1027243729;
    PowSum(1009, 3, 3);
  }

  // After at most 120 trades every product the service forms stays below 2^64.
  lemma NoOverflow(price: nat, trades: nat)
    requires WithinGrowth(price, trades) && trades <= 120
    ensures price * 126 < U64_LIMIT
    ensures price * 20 < U64_LIMIT
  {
    GrowthMonotone(price, trades, 120);
    GrowthMeans(price, 120);
    TensOfTrades(12);
    PowPositive(100, 120);
    ScaleThrough(price, INIT_MAX_PRICE, Pow(126, 120), Pow(100, 120), Pow(100, 12), Pow(1009, 12));
    TwelfthPowers();
  }

  // ---------- levels and the platform fee ----------

  function PointsToLevel(points: nat): (level: nat)
    ensures level <= 5
  {
    if points < 50_000 then 0
    else if points < 500_000 then 1
    else if points < 5_000_000 then 2
    else if points < 50_000_000 then 3
    else if points < 500_000_000 then 4
    else 5
  }

  // Level k starts at 5 * 10^(k + 3) points.
  lemma LevelReachedIff(points: nat, k: nat)
    requires 1 <= k <= 5
    ensures PointsToLevel(points) >= k <==> points >= 5 * Pow(10, k + 3)
  {
    assert Pow(10, 4) == 10_000 && Pow(10, 5) == 100_000 && Pow(10, 6) == 1_000_000;
    assert Pow(10, 7) == 10 * Pow(10, 6) && Pow(10, 8) == 10 * Pow(10, 7);
  }

  // `points as u64` on a signed column: two's complement.
  function PointsAsU64(points: int): nat {
    points % U64_LIMIT
  }

  // The values of a signed 64-bit column: the non-negative ones are unchanged,
  // the others grow by 2^64.
  lemma PointsAsU64Is(points: int)
    requires -0x8000_0000_0000_0000 <= points < 0x8000_0000_0000_0000
    ensures PointsAsU64(points) == if points >= 0 then points else points + 0x1_0000_0000_0000_0000
  {
  }

  function FeeAtLevels(price: nat, sellerLevel: nat, buyerLevel: nat): nat
    requires sellerLevel <= 5 && buyerLevel <= 5
  {
    Max(330, Times(price, 20 - sellerLevel - buyerLevel) / 1000)
  }

  function Times(n: nat, k: nat): nat {
    if k == 0 then 0 else n + Times(n, k - 1)
  }

  lemma {:induction false} TimesIs(n: nat, k: nat)
    ensures Times(n, k) == n * k
  {
    if k > 0 {
      TimesIs(n, k - 1);
      assert n + n * (k - 1) == n * k;
    }
  }

  // The fee lies between one and two percent; the 330 floor is never the
  // larger side of the maximum at a permitted price.
  lemma FeeWithinBounds(price: nat, sellerPoints: nat, buyerPoints: nat)
    requires price >= GLOBAL_MIN_PRICE
    ensures
      var s, b := PointsToLevel(sellerPoints), PointsToLevel(buyerPoints);
      var fee := FeeAtLevels(price, s, b);
      && price / 100 <= fee <= price / 50
      && 330 < fee == price * (20 - s - b) / 1000
      && fee < price
  {
    var rate := 20 - PointsToLevel(sellerPoints) - PointsToLevel(buyerPoints);
    TimesIs(price, rate);
    MulMono(10, rate, price);
    MulMono(rate, 20, price);
    assert price * 10 <= price * rate <= price * 20;
  }

  lemma FeeAntitone(price: nat, s: nat, s': nat, b: nat, b': nat)
    requires s <= s' && b <= b'
    ensures
      FeeAtLevels(price, PointsToLevel(s'), PointsToLevel(b')) <=
      FeeAtLevels(price, PointsToLevel(s), PointsToLevel(b))
  {
    var r := 20 - PointsToLevel(s) - PointsToLevel(b);
    var r' := 20 - PointsToLevel(s') - PointsToLevel(b');
    TimesIs(price, r);
    TimesIs(price, r');
    MulMono(r', r, price);
    assert price * r' <= price * r;
  }

  // ---------- discounts, in thousandths ----------

  // (1.26 * previous - price) / (1.26 * previous), rounded half up to three
  // decimals, on exact rationals.
  function Discount(price: nat, previous: nat): nat {
    if previous == 0 then 1000
    else if price * 100 >= previous * 126 then 0
    else
      var benchmark := previous * 126;
      RoundedThousandths(benchmark - price * 100, benchmark)
  }

  // 1000 * n / d, rounded half up.
  function RoundedThousandths(n: nat, d: nat): nat
    requires d > 0
  {
    Quotient(2000 * n + d, 2 * d)
  }

  // n / d
  function Quotient(n: nat, d: nat): nat
    requires d > 0
  {
    if n < d then 0 else 1 + Quotient(n - d, d)
  }

  lemma {:induction false} QuotientBelow(n: nat, d: nat, q: nat)
    requires d > 0 && n < (q + 1) * d
    ensures Quotient(n, d) <= q
  {
    if n >= d {
      assert q > 0;
      assert (q + 1) * d - d == (q - 1 + 1) * d;
      QuotientBelow(n - d, d, q - 1);
    }
  }

  lemma {:induction false} QuotientAbove(n: nat, d: nat, q: nat)
    requires d > 0 && q * d <= n
    ensures q <= Quotient(n, d)
  {
    if q > 0 {
      assert (q - 1) * d == q * d - d;
      MulMono(1, q, d);
      QuotientAbove(n - d, d, q - 1);
    }
  }

  lemma QuotientIs(n: nat, d: nat)
    requires d > 0
    ensures Quotient(n, d) == n / d
  {
    var q := n / d;
    assert q * d <= n < (q + 1) * d;
    QuotientBelow(n, d, q);
    QuotientAbove(n, d, q);
  }

  lemma RoundsToAll(n: nat, d: nat)
    requires n <= d && d > 0
    ensures RoundedThousandths(n, d) == 1000 <==> 2000 * (d - n) <= d
  {
    var x, y := 2000 * n + d, 2 * d;
    QuotientBelow(x, y, 1000);
    if 2000 * (d - n) <= d {
      assert 1000 * y <= x;
      QuotientAbove(x, y, 1000);
    } else {
      QuotientBelow(x, y, 999);
    }
  }

  // The closed form: the missing part of 1.26 times the previous price, in
  // thousandths, rounded half up.
  lemma DiscountIs(price: nat, previous: nat)
    ensures Discount(price, previous) ==
      if previous == 0 then 1000
      else if price * 100 >= previous * 126 then 0
      else (2000 * (previous * 126 - price * 100) + previous * 126) / (previous * 252)
  {
    if previous > 0 && price * 100 < previous * 126 {
      QuotientIs(2000 * (previous * 126 - price * 100) + previous * 126, 2 * (previous * 126));
    }
  }

  // A discount stays within 0.990 if and only if the price is above 0.95
  // percent of 1.26 times a positive previous price.
  lemma WithinBoundIff(price: nat, previous: nat)
    ensures Discount(price, previous) <= 990 <==> previous > 0 && previous * 2394 < price * 200_000
  {
    if previous > 0 && price * 100 < previous * 126 {
      var n, d := 2000 * (previous * 126 - price * 100) + previous * 126, 2 * (previous * 126);
      if previous * 2394 < price * 200_000 {
        QuotientBelow(n, d, 990);
      } else {
        QuotientAbove(n, d, 991);
      }
    }
  }

  // A price accepted against a base is never advertised above 0.990.
  lemma AcceptedDiscount(base: nat, price: nat)
    requires base >= GLOBAL_MIN_PRICE && ValidatePrice(base, price).Success?
    ensures Discount(price, base) <= 990
  {
    if price * 100 < base * 126 {
      var benchmark := base * 126;
      // price >= benchmark / 10000 - 1 whenever the floor is not binding
      var top := MaxPrice(base);
      assert top * 100 > benchmark - 100;
      assert price * 100 > top - 100 by { assert price >= top / 100; }
      assert price * 10000 > benchmark - 10100;
      if benchmark <= 550_000_000 {
        assert price * 10000 >= 550_000_000;
      }
      QuotientBelow(2000 * (benchmark - price * 100) + benchmark, 2 * benchmark, 990);
    }
  }

  // A rollback advertises a price against itself.
  lemma RollbackDiscount(price: nat)
    requires price > 0
    ensures Discount(price, price) == 206
  {
    assert price * 100 < price * 126;
    var benchmark := price * 126;
    assert 2000 * (benchmark - price * 100) + benchmark == 52126 * price;
    QuotientBelow(52126 * price, 252 * price, 206);
    QuotientAbove(52126 * price, 252 * price, 206);
  }

  lemma DiscountAntitone(base: nat, low: nat, high: nat)
    requires low <= high
    ensures Discount(high, base) <= Discount(low, base)
  {
    if base > 0 && low * 100 < base * 126 && high * 100 < base * 126 {
      var benchmark := base * 126;
      DivMono(2000 * (benchmark - high * 100) + benchmark, 2000 * (benchmark - low * 100) + benchmark, 2 * benchmark);
    }
  }

  lemma {:induction false} DivMono(a: nat, b: nat, d: nat)
    requires a <= b && d > 0
    ensures Quotient(a, d) <= Quotient(b, d)
  {
    if a >= d { DivMono(a - d, b - d, d); }
  }
}
