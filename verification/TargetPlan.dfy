/** The price-target response: sell the fewest whole wallets that push the
    price down to the target, or buy exactly enough to lift it there. Prices
    and square roots are exact. */
module TargetPlan {
  import opened FloorMath
  import opened Curve
  import opened Decide
  import opened Optional

  const ONE_WHOLE_TOKEN := 1_000_000_000_000_000_000

  // ---------------------------------------------------------------------
  // Prices
  // ---------------------------------------------------------------------

  /** The marginal price in wei per whole token; none when the curve holds no tokens. */
  function WeiPerWholeToken(quoteReserve: int, tokenReserve: int): Option<Ratio> {
    if tokenReserve <= 0 then None else Some(Ratio(quoteReserve * ONE_WHOLE_TOKEN, tokenReserve))
  }

  /** The marginal price after tokensIn are sold. */
  function ProjectedPriceAfterSell(quoteReserve: nat, tokenReserve: nat, tokensIn: int): Option<Ratio> {
    if tokensIn <= 0 then WeiPerWholeToken(quoteReserve, tokenReserve)
    else WeiPerWholeToken(quoteReserve - GrossOut(quoteReserve, tokenReserve, tokensIn), tokenReserve + tokensIn)
  }

  /** A price that is known and does not exceed the target. */
  predicate Reaches(price: Option<Ratio>, target: Ratio) {
    price.Some? && price.value.AtMost(target)
  }

  /** The integer square root. */
  function SquareRoot(n: nat): (r: nat)
    ensures r * r <= n < (r + 1) * (r + 1)
  {
    if n == 0 then 0
    else
      var r := SquareRoot(n - 1);
      if (r + 1) * (r + 1) <= n then r + 1 else r
  }

  /** The square of the quote reserve at which the price meets the target, rounded down. */
  function TargetSquare(quoteReserve: int, tokenReserve: int, target: Ratio): nat
    requires 0 < quoteReserve && 0 < tokenReserve && target.Valid() && 0 < target.num
  {
    MulPos(quoteReserve, tokenReserve);
    MulPos(quoteReserve * tokenReserve, target.num);
    quoteReserve * tokenReserve * target.num / (target.den * ONE_WHOLE_TOKEN)
  }

  /** The quote that must enter the curve to lift the price to the target. */
  function QuoteNeededForPrice(quoteReserve: int, tokenReserve: int, target: Ratio): (net: nat)
    requires target.Valid()
  {
    if quoteReserve <= 0 || tokenReserve <= 0 || target.num <= 0 then 0
    else
      var root := SquareRoot(TargetSquare(quoteReserve, tokenReserve, target));
      if root - quoteReserve <= 0 then 0 else root - quoteReserve
  }

  /** What a buyer must pay for `net` to enter the curve, rounded up. */
  function GrossFromNet(net: int, totalFeeBps: int): int {
    if net <= 0 then 0
    else if totalFeeBps <= 0 then net
    else if totalFeeBps >= BPS_DENOM then 0
    else
      var den := BPS_DENOM - totalFeeBps;
      (net * BPS_DENOM + den - 1) / den
  }

  // ---------------------------------------------------------------------
  // Sell plans: the shortest prefix of wallets
  // ---------------------------------------------------------------------

  /** Tokens of the first k wallets; missing or empty balances add nothing. */
  function PrefixTokens(balances: seq<int>, k: nat): (total: nat)
    requires k <= |balances|
  {
    if k == 0 then 0 else PrefixTokens(balances, k - 1) + if balances[k - 1] <= 0 then 0 else balances[k - 1]
  }

  lemma {:induction false} PrefixMono(balances: seq<int>, j: nat, k: nat)
    requires j <= k <= |balances|
    ensures PrefixTokens(balances, j) <= PrefixTokens(balances, k)
  {
    if j < k {
      PrefixMono(balances, j, k - 1);
    }
  }

  /** Accumulates whole wallets in order until the projected price reaches the target. */
  method PlanTargetSellCount(quoteReserve: nat, tokenReserve: nat, balances: seq<int>, target: Ratio)
    returns (count: nat, total: nat, reached: bool)
    ensures count <= |balances| && total == PrefixTokens(balances, count)
    ensures reached ==>
              && 0 < count && 0 < balances[count - 1]
              && Reaches(ProjectedPriceAfterSell(quoteReserve, tokenReserve, total), target)
    ensures forall k :: 0 <= k <= (if reached then count - 1 else |balances|) && 0 < PrefixTokens(balances, k) ==>
              !Reaches(ProjectedPriceAfterSell(quoteReserve, tokenReserve, PrefixTokens(balances, k)), target)
    ensures !reached ==> total == PrefixTokens(balances, |balances|)
    ensures !reached ==> forall i :: count <= i < |balances| ==> balances[i] <= 0
    ensures 0 < count ==> 0 < balances[count - 1]
    ensures 0 < quoteReserve && 0 < tokenReserve && target.Valid() && 0 < total ==>
              var all := ProjectedPriceAfterSell(quoteReserve, tokenReserve, PrefixTokens(balances, |balances|));
              (reached <==> Reaches(all, target))
  {
    count, total := 0, 0;
    for i := 0 to |balances|
      invariant count <= i && total == PrefixTokens(balances, count) == PrefixTokens(balances, i)
      invariant 0 < count ==> 0 < balances[count - 1]
      invariant forall k :: count <= k < i ==> balances[k] <= 0
      invariant forall k :: 0 <= k <= i && 0 < PrefixTokens(balances, k) ==>
                  !Reaches(ProjectedPriceAfterSell(quoteReserve, tokenReserve, PrefixTokens(balances, k)), target)
    {
      if balances[i] <= 0 {
        continue;
      }
      total := total + balances[i];
      count := i + 1;
      if Reaches(ProjectedPriceAfterSell(quoteReserve, tokenReserve, total), target) {
        PrefixMono(balances, count, |balances|);
        if 0 < quoteReserve && 0 < tokenReserve && target.Valid() {
          ReachIsUpward(quoteReserve, tokenReserve, total, PrefixTokens(balances, |balances|), target);
        }
        return count, total, true;
      }
    }
    return count, total, false;
  }

  /** Selling more strictly lowers the projected price, floor rounding included. */
  lemma ProjectedPriceFalls(q: nat, t: nat, a: int, b: int)
    requires 0 < q && 0 < t && 0 <= a < b
    ensures !ProjectedPriceAfterSell(q, t, a).value.AtMost(ProjectedPriceAfterSell(q, t, b).value)
  {
    var c := Reserves(q, t);
    var d, e := SellStep(c, a), SellStep(c, b);
    SellKeepsProduct(c, a);
    SellKeepsProduct(c, b);
    LeastQuotes(d.quote, d.tokens, e.quote, e.tokens, c.Product());
    ComparePrices(d.quote, d.tokens, e.quote, e.tokens);
    assert ProjectedPriceAfterSell(q, t, a) == WeiPerWholeToken(d.quote, d.tokens);
    assert ProjectedPriceAfterSell(q, t, b) == WeiPerWholeToken(e.quote, e.tokens);
  }

  /** Prices compare as the reserves' cross products do. */
  lemma ComparePrices(q1: int, t1: int, q2: int, t2: int)
    requires 0 < t1 && 0 < t2
    ensures WeiPerWholeToken(q1, t1).value.AtMost(WeiPerWholeToken(q2, t2).value) <==> q1 * t2 <= q2 * t1
  {
    assert (q1 * ONE_WHOLE_TOKEN) * t2 == (q1 * t2) * ONE_WHOLE_TOKEN;
    assert (q2 * ONE_WHOLE_TOKEN) * t1 == (q2 * t1) * ONE_WHOLE_TOKEN;
  }

  /** The least quotes covering one product at two token reserves: more tokens, strictly lower price. */
  lemma LeastQuotes(dq: int, dt: int, eq: int, et: int, product: int)
    requires 0 < dq && 0 < dt < et
    requires product <= dq * dt < product + dt
    requires product <= eq * et < product + et
    ensures eq <= dq && eq * dt < dq * et
  {
    MulMono(dt, et, dq);
    assert (eq - 1) * et == eq * et - et;
    MulCancelStrict(eq - 1, dq, et);
    MulMono(eq, dq, dt);
    MulMono(dt + 1, et, dq);
    assert dq * (dt + 1) == dq * dt + dq;
  }

  /** Once an amount reaches the target, every larger amount does. */
  lemma ReachIsUpward(q: nat, t: nat, a: int, b: int, target: Ratio)
    requires 0 < q && 0 < t && 0 <= a <= b && target.Valid()
    requires Reaches(ProjectedPriceAfterSell(q, t, a), target)
    ensures Reaches(ProjectedPriceAfterSell(q, t, b), target)
  {
    if a < b {
      var x, y := ProjectedPriceAfterSell(q, t, a).value, ProjectedPriceAfterSell(q, t, b).value;
      ProjectedPriceFalls(q, t, a, b);
      AtMostTransitive(y, x, target);
    }
  }

  lemma AtMostTransitive(a: Ratio, b: Ratio, c: Ratio)
    requires a.Valid() && b.Valid() && c.Valid() && a.AtMost(b) && b.AtMost(c)
    ensures a.AtMost(c)
  {
    MulMono(a.num * b.den, b.num * a.den, c.den);
    MulMono(b.num * c.den, c.num * b.den, a.den);
    assert (a.num * c.den) * b.den == (a.num * b.den) * c.den;
    assert (b.num * a.den) * c.den == (b.num * c.den) * a.den;
    assert (c.num * b.den) * a.den == (c.num * a.den) * b.den;
    MulCancel(a.num * c.den, c.num * a.den, b.den);
  }

  // ---------------------------------------------------------------------
  // Buy plans: exactly enough, and never an overshoot
  // ---------------------------------------------------------------------

  /** The price an exact constant-product curve would show after `net` enters it. */
  function IdealPrice(quoteReserve: int, tokenReserve: int, net: int): Ratio {
    Ratio((quoteReserve + net) * (quoteReserve + net) * ONE_WHOLE_TOKEN, quoteReserve * tokenReserve)
  }

  lemma SquareMono(a: int, b: int)
    requires 0 <= a <= b
    ensures a * a <= b * b
  {
    MulMono(a, b, a);
    MulMono(a, b, b);
  }

  lemma RootIsExact(n: nat, r: nat)
    ensures r <= SquareRoot(n) <==> r * r <= n
  {
    if r <= SquareRoot(n) {
      SquareMono(r, SquareRoot(n));
    } else {
      SquareMono(SquareRoot(n) + 1, r);
    }
  }

  lemma IdealAsSquare(q: int, t: int, net: nat, target: Ratio)
    requires 0 < q && 0 < t && target.Valid() && 0 < target.num
    ensures IdealPrice(q, t, net).AtMost(target) <==> q + net <= SquareRoot(TargetSquare(q, t, target))
  {
    var square, worth, d := (q + net) * (q + net), q * t * target.num, target.den * ONE_WHOLE_TOKEN;
    MulPos(q, t);
    MulPos(q * t, target.num);
    assert (square * ONE_WHOLE_TOKEN) * target.den == square * d;
    assert target.num * (q * t) == worth;
    if square * d <= worth {
      FloorAtLeast(square, worth, d);
    } else {
      FloorBelow(square, worth, d);
    }
    RootIsExact(TargetSquare(q, t, target), q + net);
  }

  /** The planned net input is the largest whole amount that does not ideally exceed the target. */
  lemma QuoteNeededIsExact(q: int, t: int, target: Ratio, net: nat)
    requires 0 < q && 0 < t && target.Valid() && Reaches(WeiPerWholeToken(q, t), target)
    ensures IdealPrice(q, t, net).AtMost(target) <==> net <= QuoteNeededForPrice(q, t, target)
  {
    IdealAtZero(q, t, target);
    IdealAsSquare(q, t, net, target);
    IdealAsSquare(q, t, 0, target);
  }

  /** With nothing entering, the ideal price is the current one. */
  lemma IdealAtZero(q: int, t: int, target: Ratio)
    requires 0 < q && 0 < t && target.Valid()
    ensures IdealPrice(q, t, 0).AtMost(target) <==> Reaches(WeiPerWholeToken(q, t), target)
    ensures Reaches(WeiPerWholeToken(q, t), target) ==> 0 < target.num
  {
    MulPos(q * ONE_WHOLE_TOKEN, target.den);
    var here := q * ONE_WHOLE_TOKEN * target.den;
    assert (q * q * ONE_WHOLE_TOKEN) * target.den == here * q;
    assert target.num * (q * t) == (target.num * t) * q;
    if here * q <= (target.num * t) * q {
      MulCancel(here, target.num * t, q);
    }
    if here <= target.num * t {
      MulMono(here, target.num * t, q);
      MulCancelStrict(0, target.num, t);
    }
  }

  /** At or above the target nothing is needed. */
  lemma NothingNeededAbove(q: int, t: int, target: Ratio)
    requires 0 < q && 0 < t && target.Valid() && !Reaches(WeiPerWholeToken(q, t), target)
    ensures QuoteNeededForPrice(q, t, target) == 0
  {
    IdealAtZero(q, t, target);
    if 0 < target.num {
      IdealAsSquare(q, t, 0, target);
    }
  }

  /** The gross payment is the least that leaves the net after the fee, and leaves exactly it. */
  lemma GrossIsLeast(net: nat, feeBps: int, gross: nat)
    requires feeBps < BPS_DENOM
    ensures AfterFee(GrossFromNet(net, feeBps), feeBps) == net
    ensures net <= AfterFee(gross, feeBps) <==> GrossFromNet(net, feeBps) <= gross
  {
    if 0 < net && 0 < feeBps {
      var den, least := BPS_DENOM - feeBps, GrossFromNet(net, feeBps);
      FloorDiv(net * BPS_DENOM + den - 1, den);
      FloorAtLeast(net, least * den, BPS_DENOM);
      FloorBelow(net + 1, least * den, BPS_DENOM);
      if least <= gross {
        FeeMono(least, gross, feeBps);
      } else {
        MulMono(gross, least - 1, den);
        assert (least - 1) * den == least * den - den;
        FloorBelow(net, gross * den, BPS_DENOM);
      }
    }
  }

  /** Every trade is a buy charged at least the given fee. */
  predicate BuysAtFee(trades: seq<Trade>, feeBps: int) {
    forall i :: 0 <= i < |trades| ==> trades[i].Buy? && feeBps <= trades[i].feeBps
  }

  /** Buys in parts bring in no more than one payment of their sum would. */
  lemma {:induction false} SplitBuysEnter(c: Reserves, trades: seq<Trade>, feeBps: int)
    requires c.Live() && BuysAtFee(trades, feeBps)
    ensures 0 <= Paid(trades)
    ensures c.quote <= Run(c, trades).quote <= c.quote + AfterFee(Paid(trades), feeBps)
    decreases |trades|
  {
    if trades != [] {
      var spend := if 0 < trades[0].spend then trades[0].spend else 0;
      SplitBuysEnter(Step(c, trades[0]), trades[1..], feeBps);
      FeeAntitone(spend, feeBps, trades[0].feeBps);
      FeeOfTwo(spend, Paid(trades[1..]), feeBps);
    }
  }

  /** Split buys never beat one buy: the curve is left with at least as many tokens. */
  lemma SplitBuysNeverBeatOne(c: Reserves, trades: seq<Trade>, feeBps: int)
    requires c.Live() && BuysAtFee(trades, feeBps)
    ensures BuyStep(c, Paid(trades), feeBps).tokens <= Run(c, trades).tokens
  {
    var d, e := Run(c, trades), BuyStep(c, Paid(trades), feeBps);
    SplitBuysEnter(c, trades, feeBps);
    RunKeepsProduct(c, trades);
    BuyKeepsProduct(c, Paid(trades), feeBps);
    BuyTakesProduct(c, Paid(trades), feeBps);
    LeastTokens(e.quote, e.tokens, d.quote, d.tokens, c.Product());
  }

  lemma LeastTokens(eq: int, et: int, dq: int, dt: int, product: int)
    requires 0 < dq <= eq && 0 < et && 0 < dt
    requires eq * et < product + eq && product <= dq * dt
    ensures et <= dt
  {
    MulMono(dq, eq, dt);
    assert (et - 1) * eq == eq * et - eq;
    MulCancelStrict(et - 1, dt, eq);
  }

  /** One buy lifts the product by less than the new quote reserve. */
  lemma BuyTakesProduct(c: Reserves, spend: int, feeBps: int)
    requires c.Live()
    ensures BuyStep(c, spend, feeBps).Product() < c.Product() + BuyStep(c, spend, feeBps).quote
  {
    if 0 < spend {
      var d, net := BuyStep(c, spend, feeBps), AfterFee(spend, feeBps);
      FloorDiv(c.tokens * net, d.quote);
      assert d.Product() == c.Product() + (c.tokens * net - c.tokens * net / d.quote * d.quote);
    }
  }

  /** Buys that together pay at most the planned gross never lift the price past
      the target, in whatever order and at whatever extra tax they land. */
  lemma NeverOvershoots(c: Reserves, target: Ratio, feeBps: int, trades: seq<Trade>)
    requires c.Live() && target.Valid() && Reaches(WeiPerWholeToken(c.quote, c.tokens), target)
    requires feeBps < BPS_DENOM && BuysAtFee(trades, feeBps)
    requires Paid(trades) <= GrossFromNet(QuoteNeededForPrice(c.quote, c.tokens, target), feeBps)
    ensures Reaches(WeiPerWholeToken(Run(c, trades).quote, Run(c, trades).tokens), target)
  {
    var d, net := Run(c, trades), QuoteNeededForPrice(c.quote, c.tokens, target);
    SplitBuysEnter(c, trades, feeBps);
    FeeMono(Paid(trades), GrossFromNet(net, feeBps), feeBps);
    GrossIsLeast(net, feeBps, 0);
    RunKeepsProduct(c, trades);
    QuoteNeededIsExact(c.quote, c.tokens, target, net);
    IdealAtZero(c.quote, c.tokens, target);
    BelowIdeal(c, d, net, target);
  }

  /** A live curve holding no more quote and no less product than the ideal one shows no higher price. */
  lemma BelowIdeal(c: Reserves, d: Reserves, net: nat, target: Ratio)
    requires c.Live() && d.Live() && target.Valid() && 0 < target.num
    requires c.Product() <= d.Product() && d.quote <= c.quote + net
    requires IdealPrice(c.quote, c.tokens, net).AtMost(target)
    ensures Reaches(WeiPerWholeToken(d.quote, d.tokens), target)
  {
    var scale := ONE_WHOLE_TOKEN * target.den;
    var r := c.quote + net;
    SquareMono(d.quote, r);
    MulMono(d.quote * d.quote, r * r, scale);
    assert (r * r * ONE_WHOLE_TOKEN) * target.den == (r * r) * scale;
    MulMono(c.Product(), d.Product(), target.num);
    assert (d.quote * scale) * d.quote == (d.quote * d.quote) * scale;
    assert target.num * d.Product() == (target.num * d.tokens) * d.quote;
    MulCancel(d.quote * scale, target.num * d.tokens, d.quote);
    assert (d.quote * ONE_WHOLE_TOKEN) * target.den == d.quote * scale;
  }

  /** The payments a plan's spends make when they land in the given order, each with the fee its wallet is charged. */
  function Landed(spends: seq<int>, order: seq<nat>, fees: seq<int>): (trades: seq<Trade>)
    requires forall k :: 0 <= k < |order| ==> order[k] < |spends|
    requires |fees| == |order|
    ensures |trades| == |order|
  {
    seq(|order|, k requires 0 <= k < |order| => Buy(spends[order[k]], fees[k]))
  }

  lemma {:induction false} LandedPays(spends: seq<int>, order: seq<nat>, fees: seq<int>)
    requires forall i :: 0 <= i < |spends| ==> 0 < spends[i]
    requires forall k :: 0 <= k < |order| ==> order[k] < |spends|
    requires |fees| == |order|
    ensures Paid(Landed(spends, order, fees)) == Sum(Pick(spends, order))
    decreases |order|
  {
    if order != [] {
      LandedPays(spends, order[1..], fees[1..]);
      assert Landed(spends, order, fees)[1..] == Landed(spends, order[1..], fees[1..]);
      assert Pick(spends, order)[1..] == Pick(spends, order[1..]);
    }
  }

  /** Any part of a buy plan, landing in any order, keeps the price at or below the target. */
  lemma PlannedBuysNeverOvershoot(c: Reserves, target: Ratio, feeBps: int, spends: seq<int>, order: seq<nat>,
                                  fees: seq<int>)
    requires c.Live() && target.Valid() && Reaches(WeiPerWholeToken(c.quote, c.tokens), target) && feeBps < BPS_DENOM
    requires forall i :: 0 <= i < |spends| ==> 0 < spends[i]
    requires Sum(spends) <= GrossFromNet(QuoteNeededForPrice(c.quote, c.tokens, target), feeBps)
    requires forall k :: 0 <= k < |order| ==> order[k] < |spends|
    requires forall j, k :: 0 <= j < k < |order| ==> order[j] != order[k]
    requires |fees| == |order| && forall k :: 0 <= k < |fees| ==> feeBps <= fees[k]
    ensures var d := Run(c, Landed(spends, order, fees)); Reaches(WeiPerWholeToken(d.quote, d.tokens), target)
  {
    PickSum(spends, order);
    LandedPays(spends, order, fees);
    NeverOvershoots(c, target, feeBps, Landed(spends, order, fees));
  }
}
