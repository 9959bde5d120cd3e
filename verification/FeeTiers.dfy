/** The platform's tiered fee (packages/domain/src/trading.ts): dollars are reals, token units integers. */
module FeeTiers {

  datatype Tier = Tier(minUsd: real, feeBps: nat)

  /** A dollar amount as a JavaScript number: finite, or not. */
  datatype Usd = NotFinite | Usd(value: real)

  datatype Rate = Refused | Rate(bps: nat)

  datatype Fee = Rejected | Fee(amount: int)

  const PLATFORM_FEE_TIERS: seq<Tier> := [Tier(0.0, 400), Tier(10.0, 200), Tier(100.0, 100), Tier(500.0, 75)]

  predicate Ascending(tiers: seq<Tier>) {
    forall i, j | 0 <= i < j < |tiers| :: tiers[i].minUsd <= tiers[j].minUsd && tiers[i].feeBps >= tiers[j].feeBps
  }

  /** `bps` is the rate of the last tier that the amount meets, or of the first when it meets none. */
  ghost predicate IsRateFor(usd: real, tiers: seq<Tier>, bps: nat) {
    tiers != [] &&
    ((exists i :: 0 <= i < |tiers| && tiers[i].minUsd <= usd && tiers[i].feeBps == bps &&
                  forall j | i < j < |tiers| :: usd < tiers[j].minUsd)
     || (tiers[0].feeBps == bps && forall j | 0 <= j < |tiers| :: usd < tiers[j].minUsd))
  }

  method ResolveTierFeeBps(usd: Usd, tiers: seq<Tier>) returns (rate: Rate)
    ensures rate.Refused? <==> usd.NotFinite? || usd.value < 0.0 || tiers == []
    ensures rate.Rate? ==> IsRateFor(usd.value, tiers, rate.bps)
  {
    if usd.NotFinite? || usd.value < 0.0 {
      return Refused;
    }
    if tiers == [] {
      return Refused;
    }
    var bps := tiers[0].feeBps;
    ghost var met := -1;
    for i := 0 to |tiers|
      invariant -1 <= met < i
      invariant if met == -1 then bps == tiers[0].feeBps else tiers[met].minUsd <= usd.value && tiers[met].feeBps == bps
      invariant forall j | met < j < i :: usd.value < tiers[j].minUsd
    {
      if usd.value >= tiers[i].minUsd {
        bps := tiers[i].feeBps;
        met := i;
      }
    }
    return Rate(bps);
  }

  /** There is exactly one such rate, so the loop's answer is the only one. */
  lemma RateIsUnique(usd: real, tiers: seq<Tier>, a: nat, b: nat)
    requires IsRateFor(usd, tiers, a) && IsRateFor(usd, tiers, b)
    ensures a == b
  {
    if i :| 0 <= i < |tiers| && tiers[i].minUsd <= usd && tiers[i].feeBps == a && forall j | i < j < |tiers| :: usd < tiers[j].minUsd {
      var k :| 0 <= k < |tiers| && tiers[k].minUsd <= usd && tiers[k].feeBps == b && forall j | k < j < |tiers| :: usd < tiers[j].minUsd;
      assert i == k;
    }
  }

  /** A larger trade is never charged at a higher rate. */
  lemma RateFallsWithSize(small: real, large: real, tiers: seq<Tier>, a: nat, b: nat)
    requires Ascending(tiers) && small <= large
    requires IsRateFor(small, tiers, a) && IsRateFor(large, tiers, b)
    ensures a >= b
  {
    if i :| 0 <= i < |tiers| && tiers[i].minUsd <= small && tiers[i].feeBps == a && forall j | i < j < |tiers| :: small < tiers[j].minUsd {
      var k :| 0 <= k < |tiers| && tiers[k].minUsd <= large && tiers[k].feeBps == b && forall j | k < j < |tiers| :: large < tiers[j].minUsd;
      assert i <= k;
    }
  }

  lemma PlatformTiersAscend()
    ensures Ascending(PLATFORM_FEE_TIERS)
  {
  }

  /** What the platform charges: 4% under $10, 2% under $100, 1% under $500, and 0.75% from there. */
  lemma PlatformRate(usd: real, bps: nat)
    requires usd >= 0.0
    ensures IsRateFor(usd, PLATFORM_FEE_TIERS, bps) <==>
            bps == if usd < 10.0 then 400 else if usd < 100.0 then 200 else if usd < 500.0 then 100 else 75
  {
    var k := if usd < 10.0 then 0 else if usd < 100.0 then 1 else if usd < 500.0 then 2 else 3;
    var rate := PLATFORM_FEE_TIERS[k].feeBps;
    assert IsRateFor(usd, PLATFORM_FEE_TIERS, rate) by {
      assert PLATFORM_FEE_TIERS[k].minUsd <= usd && forall j | k < j < 4 :: usd < PLATFORM_FEE_TIERS[j].minUsd;
    }
    if IsRateFor(usd, PLATFORM_FEE_TIERS, bps) {
      RateIsUnique(usd, PLATFORM_FEE_TIERS, bps, rate);
    }
  }

  // ---------------------------------------------------------------------------------------
  // Splitting a trade
  // ---------------------------------------------------------------------------------------

  function FeeAmount(amount: int, bps: int): (fee: Fee)
    ensures fee.Rejected? <==> bps < 0 || amount < 0
    ensures fee.Fee? ==> 0 <= 10_000 * fee.amount <= amount * bps < 10_000 * (fee.amount + 1)
  {
    if bps < 0 then Rejected
    else if amount < 0 then Rejected
    else
      assert amount * bps >= 0;
      Fee(amount * bps / 10_000)
  }

  function Amounts(trades: seq<nat>): nat {
    if trades == [] then 0 else trades[0] + Amounts(trades[1..])
  }

  /** The fees of trades charged one by one, each at its own rate. */
  function SplitFees(trades: seq<nat>, rates: seq<nat>): int
    requires |trades| == |rates|
  {
    if trades == [] then 0 else FeeAmount(trades[0], rates[0]).amount + SplitFees(trades[1..], rates[1..])
  }

  lemma FeeOfSum(a: nat, b: nat, bps: nat, higher: nat)
    requires bps <= higher
    ensures FeeAmount(a, higher).amount + FeeAmount(b, bps).amount >= FeeAmount(a + b, bps).amount - 1
    ensures FeeAmount(a, higher).amount >= FeeAmount(a, bps).amount
  {
    assert (a + b) * bps == a * bps + b * bps;
    assert a * higher == a * bps + a * (higher - bps);
    assert a * (higher - bps) >= 0;
  }

  /** At rates no lower than the whole trade's, n pieces pay all but n - 1 units of its fee. */
  lemma {:induction false} PiecesPayAlmostAll(trades: seq<nat>, rates: seq<nat>, bps: nat)
    requires |trades| == |rates| > 0 && forall i | 0 <= i < |rates| :: rates[i] >= bps
    ensures SplitFees(trades, rates) >= FeeAmount(Amounts(trades), bps).amount - (|trades| - 1)
  {
    if |trades| == 1 {
      assert trades[1..] == [];
      FeeOfSum(trades[0], 0, bps, rates[0]);
    } else {
      PiecesPayAlmostAll(trades[1..], rates[1..], bps);
      FeeOfSum(trades[0], Amounts(trades[1..]), bps, rates[0]);
    }
  }

  lemma {:induction false} PieceIsNoLarger(trades: seq<nat>, i: nat)
    requires i < |trades|
    ensures trades[i] <= Amounts(trades)
  {
    if i > 0 {
      PieceIsNoLarger(trades[1..], i - 1);
    }
  }

  function Dollars(amount: nat, usdPerUnit: real): real {
    amount as real * usdPerUnit
  }

  lemma SizeScales(a: nat, b: nat, usdPerUnit: real)
    requires a <= b && usdPerUnit >= 0.0
    ensures Dollars(a, usdPerUnit) <= Dollars(b, usdPerUnit)
  {
    assert (b as real - a as real) * usdPerUnit >= 0.0;
  }

  /**
    Splitting a trade saves at most the rounding: pieces of one token, each charged at the tier of
    its own dollar size, together pay at least the single trade's fee less one unit per extra piece.
  */
  lemma SplittingSavesOnlyRounding(trades: seq<nat>, rates: seq<nat>, whole: nat, usdPerUnit: real, tiers: seq<Tier>)
    requires |trades| == |rates| > 0 && usdPerUnit >= 0.0 && Ascending(tiers)
    requires forall i | 0 <= i < |trades| :: IsRateFor(Dollars(trades[i], usdPerUnit), tiers, rates[i])
    requires IsRateFor(Dollars(Amounts(trades), usdPerUnit), tiers, whole)
    ensures SplitFees(trades, rates) >= FeeAmount(Amounts(trades), whole).amount - (|trades| - 1)
  {
    hide *;
    forall i | 0 <= i < |trades| ensures rates[i] >= whole {
      PieceIsNoLarger(trades, i);
      SizeScales(trades[i], Amounts(trades), usdPerUnit);
      RateFallsWithSize(Dollars(trades[i], usdPerUnit), Dollars(Amounts(trades), usdPerUnit), tiers, rates[i], whole);
    }
    PiecesPayAlmostAll(trades, rates, whole);
  }

  /** The bound is met: two halves of 67 units pay nothing where 134 units at once pay one. */
  lemma RoundingCanBeSaved()
    ensures SplitFees([67, 67], [75, 75]) == FeeAmount(Amounts([67, 67]), 75).amount - 1
  {
    assert SplitFees([67, 67][1..], [75, 75][1..]) == 0;
    assert Amounts([67, 67][1..]) == 67;
  }
}
