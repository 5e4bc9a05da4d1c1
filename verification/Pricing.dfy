/** Prices and commissions in minor units, in exact integer arithmetic. */
module Pricing {
  import opened Options

  /** Metres times the rate per kilometre, rounded up to a minor unit. */
  function DistanceFee(metres: nat, ratePerKm: nat): (fee: nat) {
    (ratePerKm * metres + 999) / 1000
  }

  /** The fee is the least number of minor units that covers the exact product. */
  lemma FeeIsLeastCover(metres: nat, ratePerKm: nat, units: nat)
    ensures units >= DistanceFee(metres, ratePerKm) <==> 1000 * units >= ratePerKm * metres
  {
    var product := ratePerKm * metres;
    assert product == 1000 * (product / 1000) + product % 1000;
  }

  lemma FeeIsMonotone(near: nat, far: nat, ratePerKm: nat)
    requires near <= far
    ensures DistanceFee(near, ratePerKm) <= DistanceFee(far, ratePerKm)
  {
    assert ratePerKm * near <= ratePerKm * far;
    FeeIsLeastCover(far, ratePerKm, DistanceFee(far, ratePerKm));
    FeeIsLeastCover(near, ratePerKm, DistanceFee(far, ratePerKm));
  }

  /** Splitting a trip never makes it cheaper, and makes it dearer by at most one minor unit. */
  lemma FeeIsSubadditive(a: nat, b: nat, ratePerKm: nat)
    ensures var whole := DistanceFee(a + b, ratePerKm);
            whole <= DistanceFee(a, ratePerKm) + DistanceFee(b, ratePerKm) <= whole + 1
  {
    assert ratePerKm * (a + b) == ratePerKm * a + ratePerKm * b;
  }

  datatype PriceConfig = PriceConfig(baseFare: nat, perKm: nat, minimum: nat)

  function BasePrice(config: PriceConfig, metres: nat): (price: nat) {
    var calculated := config.baseFare + DistanceFee(metres, config.perKm);
    if calculated > config.minimum then calculated else config.minimum
  }

  /** The base price is the least amount that reaches the minimum and covers the fare and the distance. */
  lemma BasePriceIsLeast(config: PriceConfig, metres: nat, amount: nat)
    ensures amount >= BasePrice(config, metres)
       <==> (amount >= config.minimum && amount >= config.baseFare
             && 1000 * (amount - config.baseFare) >= config.perKm * metres)
  {
    if amount >= config.baseFare { FeeIsLeastCover(metres, config.perKm, amount - config.baseFare); }
  }

  lemma BasePriceIsMonotone(config: PriceConfig, near: nat, far: nat)
    requires near <= far
    ensures BasePrice(config, near) <= BasePrice(config, far)
  {
    FeeIsMonotone(near, far, config.perKm);
  }

  // ----- commission

  function Commission(price: nat, bps: nat): (c: nat) {
    price * bps / 10000
  }

  /** The commission is the greatest whole amount within the rate. */
  lemma CommissionIsGreatestWithin(price: nat, bps: nat, c: nat)
    ensures c <= Commission(price, bps) <==> 10000 * c <= price * bps
  {
    var product := price * bps;
    assert product == 10000 * (product / 10000) + product % 10000;
  }

  /**
   The commission of a price never exceeds the price, whatever it is, exactly when the rate is at most 10000
   basis points.
   */
  lemma CommissionIsWithinPriceExactly(bps: nat)
    ensures (forall price: nat :: Commission(price, bps) <= price) <==> bps <= 10000
  {
    if bps <= 10000 {
      forall price: nat ensures Commission(price, bps) <= price {
        assert price * bps <= price * 10000;
        assert Commission(price, bps) <= price * 10000 / 10000;
      }
    } else {
      assert Commission(10000, bps) == bps by { assert 10000 * bps / 10000 == bps; }
      assert Commission(10000, bps) > 10000;
    }
  }

  function Sum(parts: seq<nat>): nat {
    if parts == [] then 0 else Sum(parts[..|parts| - 1]) + parts[|parts| - 1]
  }

  function SumOfCommissions(parts: seq<nat>, bps: nat): nat {
    if parts == [] then 0 else SumOfCommissions(parts[..|parts| - 1], bps) + Commission(parts[|parts| - 1], bps)
  }

  function SumOfRemainders(parts: seq<nat>, bps: nat): nat {
    if parts == [] then 0 else SumOfRemainders(parts[..|parts| - 1], bps) + parts[|parts| - 1] * bps % 10000
  }

  lemma {:induction false} PartsAddUp(parts: seq<nat>, bps: nat)
    ensures Sum(parts) * bps == 10000 * SumOfCommissions(parts, bps) + SumOfRemainders(parts, bps)
    ensures SumOfRemainders(parts, bps) <= 9999 * |parts|
  {
    if parts != [] {
      var front, last := parts[..|parts| - 1], parts[|parts| - 1];
      PartsAddUp(front, bps);
      assert Sum(parts) * bps == Sum(front) * bps + last * bps;
      var product := last * bps;
      assert product == 10000 * (product / 10000) + product % 10000;
    }
  }

  /** Charging a price in n parts never raises the commission, and loses fewer than n minor units. */
  lemma SplittingLosesLittle(parts: seq<nat>, bps: nat)
    requires parts != []
    ensures SumOfCommissions(parts, bps) <= Commission(Sum(parts), bps) < SumOfCommissions(parts, bps) + |parts|
  {
    PartsAddUp(parts, bps);
    var whole, split := Commission(Sum(parts), bps), SumOfCommissions(parts, bps);
    CommissionIsGreatestWithin(Sum(parts), bps, split);
    CommissionIsGreatestWithin(Sum(parts), bps, split + |parts|);
  }

  // ----- a new shipment's prices

  /** The customer may give either price; the estimate is only made when one is missing. */
  datatype NewPrices = NewPrices(quoted: Option<nat>, final: Option<nat>, commission: nat)

  function PricesAtCreation(quoted: Option<nat>, final: Option<nat>, config: PriceConfig, metres: nat,
                            bps: nat): NewPrices {
    var estimate := if quoted.None? || final.None? then Some(BasePrice(config, metres)) else None;
    var q := if quoted.Some? then quoted else estimate;
    var f := if final.Some? then final else q;
    NewPrices(q, f, if f.Some? then Commission(f.value, bps) else 0)
  }

  /**
   A new shipment always has both prices: those given, and otherwise the base price of its distance as the
   quote and the quote as the final price. Its commission is the floor of the rate on the final price.
   */
  lemma NewShipmentIsPriced(quoted: Option<nat>, final: Option<nat>, config: PriceConfig, metres: nat, bps: nat)
    ensures var p := PricesAtCreation(quoted, final, config, metres, bps);
            && p.quoted.Some? && p.final.Some?
            && (quoted.Some? ==> p.quoted == quoted) && (final.Some? ==> p.final == final)
            && (quoted.None? ==> p.quoted == Some(BasePrice(config, metres)) && p.quoted.value >= config.minimum)
            && (final.None? ==> p.final == p.quoted)
            && 10000 * p.commission <= p.final.value * bps < 10000 * (p.commission + 1)
            && (bps <= 10000 ==> p.commission <= p.final.value)
  {
    var p := PricesAtCreation(quoted, final, config, metres, bps);
    BasePriceIsLeast(config, metres, BasePrice(config, metres));
    CommissionIsGreatestWithin(p.final.value, bps, p.commission);
    CommissionIsGreatestWithin(p.final.value, bps, p.commission + 1);
    CommissionIsWithinPriceExactly(bps);
  }

  // ----- metres

  /** Kilometres to whole metres, rounded half up, and never negative. */
  function Metres(km: real): nat {
    var rounded := (km * 1000.0 + 0.5).Floor;
    if rounded > 0 then rounded else 0
  }

  /** Metres are the nearest whole number, the higher one of two; a negative distance counts as none. */
  lemma MetresAreNearest(km: real)
    ensures km >= 0.0 ==> Metres(km) as real - 0.5 <= km * 1000.0 < Metres(km) as real + 0.5
    ensures km < 0.0 ==> Metres(km) == 0
  {
  }

  /** A longer trip never has a smaller base price. */
  lemma BasePriceGrowsWithDistance(config: PriceConfig, near: real, far: real)
    requires near <= far
    ensures BasePrice(config, Metres(near)) <= BasePrice(config, Metres(far))
  {
    assert near * 1000.0 + 0.5 <= far * 1000.0 + 0.5;
    BasePriceIsMonotone(config, Metres(near), Metres(far));
  }
}
