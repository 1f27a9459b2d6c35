/** What the price target means: prices against the retail average and the configured ratio,
    cross-multiplied, and where the planned trades leave the curve. */
module TargetGoal {
  import opened FloorMath
  import opened Curve
  import opened Decide
  import opened ExitProceeds
  import opened TargetPlan

  /** The price the response aims for: the retail average moved by the configured ratio. */
  function TargetPrice(avg: Ratio, ratio: Ratio): Ratio {
    Ratio(avg.num * (ratio.den + ratio.num), avg.den * ratio.den)
  }

  /** At these reserves a whole token costs at most the average and `ratio` of it more, or, when the
      ratio is negative, at most the average less that part of it. */
  predicate Within(d: Reserves, avg: Ratio, ratio: Ratio) {
    (d.quote * 1_000_000_000_000_000_000 * avg.den - avg.num * d.tokens) * ratio.den <= avg.num * ratio.num * d.tokens
  }

  /** The same at the price the curve would ideally show once `net` has entered it. */
  predicate IdeallyWithin(c: Reserves, net: int, avg: Ratio, ratio: Ratio) {
    var q, p := c.quote + net, c.quote * c.tokens;
    (q * q * 1_000_000_000_000_000_000 * avg.den - avg.num * p) * ratio.den <= avg.num * ratio.num * p
  }

  lemma PriceAgainstTarget(worth: int, p: int, avg: Ratio, ratio: Ratio)
    ensures (worth * avg.den - avg.num * p) * ratio.den <= avg.num * ratio.num * p
            <==> worth * (avg.den * ratio.den) <= (avg.num * (ratio.den + ratio.num)) * p
  {
    assert (worth * avg.den - avg.num * p) * ratio.den == worth * (avg.den * ratio.den) - (avg.num * ratio.den) * p by {
      assert (worth * avg.den) * ratio.den == worth * (avg.den * ratio.den);
      assert (avg.num * p) * ratio.den == (avg.num * ratio.den) * p;
    }
    assert (avg.num * (ratio.den + ratio.num)) * p == (avg.num * ratio.den) * p + (avg.num * ratio.num) * p;
  }

  /** Reaching the target price is being within. */
  lemma ReachesIsWithin(d: Reserves, avg: Ratio, ratio: Ratio)
    requires 0 < d.tokens && avg.Valid() && ratio.Valid()
    ensures TargetPrice(avg, ratio).Valid()
    ensures Reaches(WeiPerWholeToken(d.quote, d.tokens), TargetPrice(avg, ratio)) <==> Within(d, avg, ratio)
  {
    MulPos(avg.den, ratio.den);
    PriceAgainstTarget(d.quote * ONE_WHOLE_TOKEN, d.tokens, avg, ratio);
  }

  lemma IdealIsWithin(c: Reserves, net: int, avg: Ratio, ratio: Ratio)
    requires c.Live() && avg.Valid() && ratio.Valid()
    ensures IdealPrice(c.quote, c.tokens, net).AtMost(TargetPrice(avg, ratio)) <==> IdeallyWithin(c, net, avg, ratio)
  {
    PriceAgainstTarget((c.quote + net) * (c.quote + net) * ONE_WHOLE_TOKEN, c.quote * c.tokens, avg, ratio);
  }

  // ---------------------------------------------------------------------
  // Selling down to the target
  // ---------------------------------------------------------------------

  /** The reserves once so many tokens are sold at once, for a curve that may have run out of quote. */
  function Sold(c: Reserves, amount: int): Reserves
    requires 0 < c.tokens
  {
    if amount <= 0 then c else Reserves(c.quote - GrossOut(c.quote, c.tokens, amount), c.tokens + amount)
  }

  lemma SoldIsSell(c: Reserves, amount: int)
    requires c.Live()
    ensures Sold(c, amount) == SellStep(c, amount)
  {
  }

  /** The projected price is the one the curve shows once the tokens are sold at once. */
  lemma ProjectedIsWithin(c: Reserves, amount: nat, avg: Ratio, ratio: Ratio)
    requires 0 <= c.quote && 0 < c.tokens && avg.Valid() && ratio.Valid()
    ensures Reaches(ProjectedPriceAfterSell(c.quote, c.tokens, amount), TargetPrice(avg, ratio))
            <==> Within(Sold(c, amount), avg, ratio)
  {
    ReachesIsWithin(Sold(c, amount), avg, ratio);
  }

  /** Tokens sold in parts reach the target up to a wei for each part but the first. */
  lemma PartsStayNear(c: Reserves, amounts: seq<int>, avg: Ratio, ratio: Ratio)
    requires c.Live() && amounts != [] && forall i :: 0 <= i < |amounts| ==> 0 < amounts[i]
    requires avg.Valid() && ratio.Valid() && Within(SellStep(c, Sum(amounts)), avg, ratio)
    ensures var d := SellAll(c, amounts); Within(Reserves(d.quote - (|amounts| - 1), d.tokens), avg, ratio)
  {
    var once, d := SellStep(c, Sum(amounts)), SellAll(c, amounts);
    SplitSellBracket(c, amounts);
    LowerIsWithin(once.quote, d.quote - (|amounts| - 1), d.tokens, avg, ratio);
  }

  lemma LowerIsWithin(high: int, low: int, tokens: int, avg: Ratio, ratio: Ratio)
    requires low <= high && avg.Valid() && ratio.Valid() && Within(Reserves(high, tokens), avg, ratio)
    ensures Within(Reserves(low, tokens), avg, ratio)
  {
    var unit := ONE_WHOLE_TOKEN;
    MulMono(low, high, unit);
    MulMono(low * unit, high * unit, avg.den);
    MulMono(low * unit * avg.den - avg.num * tokens, high * unit * avg.den - avg.num * tokens, ratio.den);
  }

  /** And that wei can be the difference: at reserves (3, 1), aiming at the price of (1, 3), one sell of
      two tokens reaches the target, one token is not enough, and two sells of one token do not reach it. */
  lemma PartsCanMiss()
    ensures var c, avg, ratio := Reserves(3, 1), Ratio(2_000_000_000_000_000_000, 3), Ratio(-1, 2);
            && !Within(SellStep(c, 1), avg, ratio) && Within(SellStep(c, 2), avg, ratio)
            && !Within(SellAll(c, [1, 1]), avg, ratio)
  {
    SmallSells();
    ThirdIsTheTarget();
  }

  lemma SmallSells()
    ensures SellStep(Reserves(3, 1), 1) == Reserves(2, 2) && SellStep(Reserves(3, 1), 2) == Reserves(1, 3)
    ensures SellAll(Reserves(3, 1), [1, 1]) == Reserves(2, 3)
  {
    SellStepIs(Reserves(3, 1), 1, 1);
    SellStepIs(Reserves(3, 1), 2, 2);
    SellStepIs(Reserves(2, 2), 1, 0);
    TwoSells(Reserves(3, 1), 1, 1);
  }

  lemma SellStepIs(c: Reserves, amount: int, gross: int)
    requires c.Live() && 0 < amount
    requires gross * (c.tokens + amount) <= c.quote * amount < (gross + 1) * (c.tokens + amount)
    ensures SellStep(c, amount) == Reserves(c.quote - gross, c.tokens + amount)
  {
    FloorAtLeast(gross, c.quote * amount, c.tokens + amount);
    FloorBelow(gross + 1, c.quote * amount, c.tokens + amount);
  }

  lemma TwoSells(c: Reserves, a: int, b: int)
    requires c.Live()
    ensures SellStep(c, a).Live() && SellAll(c, [a, b]) == SellStep(SellStep(c, a), b)
  {
    SellKeepsProduct(c, a);
    var d := SellStep(c, a);
    SellKeepsProduct(d, b);
    assert [a, b][1..] == [b] && [b][1..] == [];
    assert SellAll(d, [b]) == SellAll(SellStep(d, b), []);
  }

  lemma ThirdIsTheTarget()
    ensures var avg, ratio := Ratio(2_000_000_000_000_000_000, 3), Ratio(-1, 2);
            && !Within(Reserves(2, 2), avg, ratio) && Within(Reserves(1, 3), avg, ratio)
            && !Within(Reserves(2, 3), avg, ratio)
  {
  }

  // ---------------------------------------------------------------------
  // Buying up to the target
  // ---------------------------------------------------------------------

  /** What is paid in all is exactly enough: what enters the curve after the fee stays within the target, and unless it
      is all there is, one unit more would not, and no smaller payment would bring in as much. */
  ghost predicate ExactlyEnough(c: Reserves, avg: Ratio, ratio: Ratio, feeBps: int, paid: int, funds: int) {
    && 0 < paid <= funds
    && IdeallyWithin(c, AfterFee(paid, feeBps), avg, ratio)
    && (paid < funds ==>
          && !IdeallyWithin(c, AfterFee(paid, feeBps) + 1, avg, ratio)
          && forall less :: 0 <= less < paid ==> AfterFee(less, feeBps) < AfterFee(paid, feeBps))
  }

  /** A live curve below the target can use any payment at all exactly when the least unit of quote stays within it. */
  lemma NeedIffOneUnitFits(c: Reserves, avg: Ratio, ratio: Ratio, feeBps: int)
    requires c.Live() && avg.Valid() && ratio.Valid()
    ensures TargetPrice(avg, ratio).Valid()
    ensures IdeallyWithin(c, 1, avg, ratio) ==> Within(c, avg, ratio)
    ensures 0 < GrossFromNet(QuoteNeededForPrice(c.quote, c.tokens, TargetPrice(avg, ratio)), feeBps)
            <==> IdeallyWithin(c, 1, avg, ratio) && feeBps < BPS_DENOM
  {
    var target := TargetPrice(avg, ratio);
    ReachesIsWithin(c, avg, ratio);
    IdealIsWithin(c, 1, avg, ratio);
    if IdeallyWithin(c, 1, avg, ratio) {
      IdealIsMonotone(c, 0, 1, avg, ratio);
      IdealIsWithin(c, 0, avg, ratio);
      IdealAtZero(c.quote, c.tokens, target);
    }
    if Within(c, avg, ratio) {
      QuoteNeededIsExact(c.quote, c.tokens, target, 1);
    } else {
      NothingNeededAbove(c.quote, c.tokens, target);
    }
    var net := QuoteNeededForPrice(c.quote, c.tokens, target);
    if feeBps < BPS_DENOM {
      GrossIsLeast(net, feeBps, 0);
      GrossIsLeast(0, feeBps, 0);
    }
  }

  lemma IdealIsMonotone(c: Reserves, low: int, high: int, avg: Ratio, ratio: Ratio)
    requires c.Live() && avg.Valid() && ratio.Valid() && 0 <= low <= high && IdeallyWithin(c, high, avg, ratio)
    ensures IdeallyWithin(c, low, avg, ratio)
  {
    var p, unit := c.quote * c.tokens, ONE_WHOLE_TOKEN;
    var small, large := (c.quote + low) * (c.quote + low), (c.quote + high) * (c.quote + high);
    SquareMono(c.quote + low, c.quote + high);
    MulMono(small, large, unit);
    MulMono(small * unit, large * unit, avg.den);
    MulMono(small * unit * avg.den - avg.num * p, large * unit * avg.den - avg.num * p, ratio.den);
  }

  /** The planned payments are exactly enough. */
  lemma NeedIsEnough(c: Reserves, avg: Ratio, ratio: Ratio, feeBps: int, paid: int, funds: int)
    requires c.Live() && avg.Valid() && ratio.Valid() && feeBps < BPS_DENOM && IdeallyWithin(c, 1, avg, ratio)
    requires TargetPrice(avg, ratio).Valid() && 0 < funds
    requires paid == Min(GrossFromNet(QuoteNeededForPrice(c.quote, c.tokens, TargetPrice(avg, ratio)), feeBps), funds)
    ensures ExactlyEnough(c, avg, ratio, feeBps, paid, funds)
  {
    var target := TargetPrice(avg, ratio);
    var net := QuoteNeededForPrice(c.quote, c.tokens, target);
    var gross := GrossFromNet(net, feeBps);
    NeedIffOneUnitFits(c, avg, ratio, feeBps);
    ReachesIsWithin(c, avg, ratio);
    GrossIsLeast(net, feeBps, 0);
    FeeMono(paid, gross, feeBps);
    QuoteNeededIsExact(c.quote, c.tokens, target, AfterFee(paid, feeBps));
    IdealIsWithin(c, AfterFee(paid, feeBps), avg, ratio);
    if paid < funds {
      QuoteNeededIsExact(c.quote, c.tokens, target, net + 1);
      IdealIsWithin(c, net + 1, avg, ratio);
      forall less | 0 <= less < paid
        ensures AfterFee(less, feeBps) < AfterFee(paid, feeBps)
      {
        GrossIsLeast(net, feeBps, less);
      }
    }
  }

  /** However a buy plan lands, whole or in part, in whatever order and at whatever extra tax, the price stays
      within the target. */
  lemma PlannedBuysStayWithin(c: Reserves, avg: Ratio, ratio: Ratio, feeBps: int, spends: seq<int>, funds: int,
                              order: seq<nat>, fees: seq<int>)
    requires c.Live() && avg.Valid() && ratio.Valid() && feeBps < BPS_DENOM
    requires forall i :: 0 <= i < |spends| ==> 0 < spends[i]
    requires ExactlyEnough(c, avg, ratio, feeBps, Sum(spends), funds)
    requires forall k :: 0 <= k < |order| ==> order[k] < |spends|
    requires forall j, k :: 0 <= j < k < |order| ==> order[j] != order[k]
    requires |fees| == |order| && forall k :: 0 <= k < |fees| ==> feeBps <= fees[k]
    ensures Within(Run(c, Landed(spends, order, fees)), avg, ratio)
  {
    var net, trades := AfterFee(Sum(spends), feeBps), Landed(spends, order, fees);
    var target, d := TargetPrice(avg, ratio), Run(c, trades);
    PickSum(spends, order);
    LandedPays(spends, order, fees);
    SplitBuysEnter(c, trades, feeBps);
    FeeMono(Paid(trades), Sum(spends), feeBps);
    RunKeepsProduct(c, trades);
    IdealIsWithin(c, net, avg, ratio);
    ReachesIsWithin(c, avg, ratio);
    IdealIsMonotone(c, 0, net, avg, ratio);
    IdealIsWithin(c, 0, avg, ratio);
    IdealAtZero(c.quote, c.tokens, target);
    BelowIdeal(c, d, net, target);
    ReachesIsWithin(d, avg, ratio);
  }
}
