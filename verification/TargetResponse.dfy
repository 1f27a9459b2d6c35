/** Planning one price-target response from what the engine knows. */
module TargetResponse {
  import opened FloorMath
  import opened Curve
  import opened Decide
  import opened Optional
  import opened ExitPlan
  import opened TargetPlan
  import opened TargetGoal

  /** One prepared response: whole wallets to sell, or what each wallet spends. */
  datatype Response =
    | SellBatch(holders: seq<nat>, totalTokens: int, quote: int)
    | BuyBatch(buyers: seq<nat>, spends: seq<int>)

  /** Takes each fund in full, in order, until the need is met; the last one is capped. */
  method PlanBuys(funds: seq<int>, needGross: nat) returns (buyers: seq<nat>, spends: seq<int>, remaining: nat)
    requires 0 < needGross
    ensures |buyers| == |spends|
    ensures forall j, k :: 0 <= j < k < |buyers| ==> buyers[j] < buyers[k]
    ensures forall k :: 0 <= k < |buyers| ==> buyers[k] < |funds| && 0 < spends[k] <= funds[buyers[k]]
    ensures forall k :: 0 <= k < |buyers| - 1 ==> spends[k] == funds[buyers[k]]
    ensures Sum(spends) + remaining == needGross
    ensures Sum(spends) == Min(needGross, PrefixTokens(funds, |funds|))
  {
    buyers, spends, remaining := [], [], needGross;
    for w := 0 to |funds|
      invariant |buyers| == |spends| && 0 < remaining
      invariant forall j, k :: 0 <= j < k < |buyers| ==> buyers[j] < buyers[k]
      invariant forall k :: 0 <= k < |buyers| ==> buyers[k] < w && 0 < spends[k] == funds[buyers[k]]
      invariant Sum(spends) == PrefixTokens(funds, w) == needGross - remaining
    {
      if funds[w] <= 0 {
        continue;
      }
      var spend := if funds[w] > remaining then remaining else funds[w];
      SumSnoc(spends, spend);
      buyers, spends := buyers + [w], spends + [spend];
      remaining := remaining - spend;
      if remaining == 0 {
        PrefixMono(funds, w + 1, |funds|);
        return;
      }
    }
  }

  /** The sell batch: the shortest prefix of the holders that reaches the target, or all of them. */
  ghost predicate ShortestSell(plan: Response, c: Reserves, target: Ratio, balances: seq<nat>, feeBps: int) {
    var held := Held(balances);
    var amounts := Amounts(held);
    && plan.SellBatch?
    && 0 < |plan.holders| <= |held|
    && (forall i :: 0 <= i < |plan.holders| ==> plan.holders[i] == held[i].wallet)
    && plan.totalTokens == PrefixTokens(amounts, |plan.holders|)
    && plan.quote == QuoteOutForTokens(c.quote, c.tokens, plan.totalTokens, feeBps, 0)
    && 0 <= c.quote && 0 <= c.tokens
    && (|plan.holders| < |held| ==> Reaches(ProjectedPriceAfterSell(c.quote, c.tokens, plan.totalTokens), target))
    && (forall k :: 0 <= k < |plan.holders| ==>
          !Reaches(ProjectedPriceAfterSell(c.quote, c.tokens, PrefixTokens(amounts, k)), target))
  }

  /** The wallets that hold tokens and what they hold, in list order. */
  method HeldBalances(balances: seq<nat>) returns (holders: seq<nat>, amounts: seq<int>)
    ensures amounts == Amounts(Held(balances)) && |holders| == |amounts|
    ensures forall i :: 0 <= i < |holders| ==> holders[i] == Held(balances)[i].wallet
  {
    holders, amounts := [], [];
    for w := 0 to |balances|
      invariant |holders| == |amounts| == |Held(balances[..w])|
      invariant forall i :: 0 <= i < |holders| ==> holders[i] == Held(balances[..w])[i].wallet
      invariant amounts == Amounts(Held(balances[..w]))
    {
      assert balances[..w + 1][..w] == balances[..w];
      if balances[w] > 0 {
        holders, amounts := holders + [w], amounts + [balances[w]];
      }
    }
    assert balances[..|balances|] == balances;
  }

  lemma HeldAmountsPositive(balances: seq<nat>)
    ensures forall i :: 0 <= i < |Held(balances)| ==> 0 < Amounts(Held(balances))[i]
  {
    HeldIsSound(balances);
    assert forall i :: 0 <= i < |Held(balances)| ==> Clears(Held(balances)[i], balances);
  }

  method PlanSellBatch(c: Reserves, target: Ratio, balances: seq<nat>, feeBps: int) returns (plan: Option<Response>)
    requires 0 <= c.quote && 0 < c.tokens
    requires !Reaches(WeiPerWholeToken(c.quote, c.tokens), target)
    ensures plan.None? <==> Held(balances) == []
    ensures plan.Some? ==> ShortestSell(plan.value, c, target, balances, feeBps)
  {
    var holders, amounts := HeldBalances(balances);
    if |holders| == 0 {
      return None;
    }
    HeldAmountsPositive(balances);
    var count, total, reached := PlanTargetSellCount(c.quote, c.tokens, amounts, target);
    assert PrefixTokens(amounts, 0) == 0;
    forall k | 0 <= k < count
      ensures !Reaches(ProjectedPriceAfterSell(c.quote, c.tokens, PrefixTokens(amounts, k)), target)
    {
      if 0 < k {
        assert amounts[k - 1] > 0;
        assert 0 < PrefixTokens(amounts, k);
      }
    }
    var quote := QuoteOutForTokens(c.quote, c.tokens, total, feeBps, 0);
    return Some(SellBatch(holders[..count], total, quote));
  }

  /** The buy batch: makers in order within their funds, together the need or all there is. */
  ghost predicate MeetsNeed(plan: Response, funds: seq<int>, need: int) {
    && plan.BuyBatch?
    && |plan.buyers| == |plan.spends| > 0
    && (forall k :: 0 <= k < |plan.buyers| ==> plan.buyers[k] < |funds| && 0 < plan.spends[k] <= funds[plan.buyers[k]])
    && (forall j, k :: 0 <= j < k < |plan.buyers| ==> plan.buyers[j] < plan.buyers[k])
    && Sum(plan.spends) == Min(need, PrefixTokens(funds, |funds|))
  }

  method PlanBuyBatch(needGross: nat, funds: seq<int>) returns (plan: Option<Response>)
    requires 0 < needGross
    ensures plan.None? <==> PrefixTokens(funds, |funds|) == 0
    ensures plan.Some? ==> MeetsNeed(plan.value, funds, needGross)
  {
    var buyers, spends, remaining := PlanBuys(funds, needGross);
    if |buyers| == 0 {
      assert Sum(spends) == 0;
      return None;
    }
    SumNonNegative(spends);
    assert spends[0] <= Sum(spends);
    return Some(BuyBatch(buyers, spends));
  }

  // ---------------------------------------------------------------------
  // The whole response, against the retail average and the ratio
  // ---------------------------------------------------------------------

  /** There is an average to aim from and a curve to act on. */
  predicate Informed(avg: Option<Ratio>, reserves: Option<Reserves>) {
    && avg.Some? && avg.value.Valid() && 0 < avg.value.num
    && reserves.Some? && 0 < reserves.value.tokens
  }

  /** A response is called for: the price is above a target below the average and somebody holds tokens to sell, or
      it leaves room below a target above the average and some maker has funds to buy with. */
  predicate CalledFor(ratio: Ratio, avg: Option<Ratio>, reserves: Option<Reserves>, balances: seq<nat>,
                      funds: seq<int>, feeBps: int)
  {
    && Informed(avg, reserves)
    && (|| (ratio.num < 0 && !Within(reserves.value, avg.value, ratio)
            && exists w :: 0 <= w < |balances| && balances[w] > 0)
        || (0 < ratio.num && IdeallyWithin(reserves.value, 1, avg.value, ratio) && feeBps < 10_000
            && exists w :: 0 <= w < |funds| && funds[w] > 0))
  }

  /** The wallets are the first of those that hold tokens, in list order. */
  ghost predicate FirstHolders(wallets: seq<nat>, balances: seq<nat>) {
    && (forall i :: 0 <= i < |wallets| ==> wallets[i] < |balances| && balances[wallets[i]] > 0)
    && (forall i, j :: 0 <= i < j < |wallets| ==> wallets[i] < wallets[j])
    && forall i, w :: 0 <= w < |balances| && balances[w] > 0 && 0 <= i < |wallets| && w < wallets[i] ==> w in wallets
  }

  /** A sell plan takes the fewest first holders whose tokens, sold at once, bring the price within the target, or all
      holders when even they do not; its quote is for exactly those tokens. */
  ghost predicate SellsToTarget(plan: Response, c: Reserves, avg: Ratio, ratio: Ratio, balances: seq<nat>,
                                feeBps: int) {
    && plan.SellBatch? && plan.holders != [] && FirstHolders(plan.holders, balances)
    && plan.totalTokens == Sum(Pick(balances, plan.holders))
    && plan.quote == QuoteOutForTokens(c.quote, c.tokens, plan.totalTokens, feeBps, 0)
    && 0 < c.tokens
    && ((exists w :: 0 <= w < |balances| && balances[w] > 0 && w !in plan.holders) ==>
          Within(Sold(c, plan.totalTokens), avg, ratio))
    && forall k :: 0 <= k < |plan.holders| ==> !Within(Sold(c, Sum(Pick(balances, plan.holders[..k]))), avg, ratio)
  }

  /** A buy plan spends, of makers in order and within their funds, exactly enough. */
  ghost predicate BuysToTarget(plan: Response, c: Reserves, avg: Ratio, ratio: Ratio, funds: seq<int>, feeBps: int) {
    && plan.BuyBatch? && |plan.buyers| == |plan.spends| > 0
    && (forall k :: 0 <= k < |plan.buyers| ==> plan.buyers[k] < |funds| && 0 < plan.spends[k] <= funds[plan.buyers[k]])
    && (forall j, k :: 0 <= j < k < |plan.buyers| ==> plan.buyers[j] < plan.buyers[k])
    && ExactlyEnough(c, avg, ratio, feeBps, Sum(plan.spends), PrefixTokens(funds, |funds|))
  }

  lemma HeldAreFirst(balances: seq<nat>, wallets: seq<nat>)
    requires |wallets| <= |Held(balances)| && forall i :: 0 <= i < |wallets| ==> wallets[i] == Held(balances)[i].wallet
    ensures FirstHolders(wallets, balances)
    ensures |wallets| == |Held(balances)| <==> forall w :: 0 <= w < |balances| && balances[w] > 0 ==> w in wallets
    ensures forall i :: 0 <= i < |wallets| ==> balances[wallets[i]] == Held(balances)[i].amount
  {
    var held := Held(balances);
    HeldIsSound(balances);
    assert forall i :: 0 <= i < |held| ==> Clears(held[i], balances);
    forall i, w | 0 <= w < |balances| && balances[w] > 0 && 0 <= i < |wallets| && w < wallets[i]
      ensures w in wallets
    {
      HeldIsComplete(balances, w);
      var j :| 0 <= j < |held| && held[j].wallet == w;
      HeldEarlier(balances, j, i);
      assert wallets[j] == w;
    }
    if |wallets| == |held| {
      forall w | 0 <= w < |balances| && balances[w] > 0
        ensures w in wallets
      {
        HeldIsComplete(balances, w);
        var j :| 0 <= j < |held| && held[j].wallet == w;
        assert wallets[j] == w;
      }
    } else {
      var next := held[|wallets|].wallet;
      assert next !in wallets && balances[next] > 0;
    }
  }

  lemma HeldEarlier(balances: seq<nat>, j: nat, i: nat)
    requires j < |Held(balances)| && i < |Held(balances)| && Held(balances)[j].wallet < Held(balances)[i].wallet
    ensures j < i
  {
    HeldIsSound(balances);
  }

  lemma {:induction false} PrefixIsPick(balances: seq<nat>, wallets: seq<nat>, k: nat)
    requires k <= |wallets| <= |Held(balances)|
    requires forall i :: 0 <= i < |wallets| ==> wallets[i] == Held(balances)[i].wallet
    ensures forall i :: 0 <= i < |wallets| ==> wallets[i] < |balances|
    ensures PrefixTokens(Amounts(Held(balances)), k) == Sum(Pick(balances, wallets[..k]))
  {
    HeldAreFirst(balances, wallets);
    if k > 0 {
      PrefixIsPick(balances, wallets, k - 1);
      assert wallets[..k] == wallets[..k - 1] + [wallets[k - 1]];
      assert Pick(balances, wallets[..k]) == Pick(balances, wallets[..k - 1]) + [balances[wallets[k - 1]] as int];
      SumSnoc(Pick(balances, wallets[..k - 1]), balances[wallets[k - 1]]);
    } else {
      assert Pick(balances, wallets[..0]) == [];
    }
  }

  /** The shortest batch sells to the target. */
  lemma ShortestSellsToTarget(plan: Response, c: Reserves, avg: Ratio, ratio: Ratio, balances: seq<nat>, feeBps: int)
    requires 0 <= c.quote && 0 < c.tokens && avg.Valid() && ratio.Valid()
    requires ShortestSell(plan, c, TargetPrice(avg, ratio), balances, feeBps)
    ensures SellsToTarget(plan, c, avg, ratio, balances, feeBps)
  {
    var n := |plan.holders|;
    HeldAreFirst(balances, plan.holders);
    PrefixIsPick(balances, plan.holders, n);
    assert plan.holders[..n] == plan.holders;
    SumOfPickNonNegative(balances, plan.holders);
    ProjectedIsWithin(c, plan.totalTokens, avg, ratio);
    forall k | 0 <= k < n
      ensures !Within(Sold(c, Sum(Pick(balances, plan.holders[..k]))), avg, ratio)
    {
      PrefixIsPick(balances, plan.holders, k);
      SumOfPickNonNegative(balances, plan.holders[..k]);
      ProjectedIsWithin(c, Sum(Pick(balances, plan.holders[..k])), avg, ratio);
    }
  }

  lemma SumOfPickNonNegative(balances: seq<nat>, wallets: seq<nat>)
    requires forall i :: 0 <= i < |wallets| ==> wallets[i] < |balances|
    ensures 0 <= Sum(Pick(balances, wallets))
  {
    SumNonNegative(Pick(balances, wallets));
  }

  lemma {:induction false} FundsArePositive(funds: seq<int>, k: nat)
    requires k <= |funds|
    ensures 0 <= PrefixTokens(funds, k)
    ensures 0 < PrefixTokens(funds, k) <==> exists w :: 0 <= w < k && funds[w] > 0
  {
    if k > 0 {
      FundsArePositive(funds, k - 1);
    }
  }

  lemma HeldIffPositive(balances: seq<nat>)
    ensures Held(balances) != [] <==> exists w :: 0 <= w < |balances| && balances[w] > 0
  {
    HeldAreFirst(balances, []);
  }

  /** Nothing is planned exactly when no response is called for; otherwise the plan sells or buys to the target. */
  method PlanTargetResponse(ratio: Ratio, avg: Option<Ratio>, reserves: Option<Reserves>, balances: seq<nat>,
                            funds: seq<int>, feeBps: int)
    returns (plan: Option<Response>)
    requires ratio.Valid() && (avg.Some? ==> avg.value.Valid())
    requires reserves.Some? ==> 0 <= reserves.value.quote && 0 <= reserves.value.tokens
    ensures plan.Some? <==> CalledFor(ratio, avg, reserves, balances, funds, feeBps)
    ensures plan.Some? && ratio.num < 0 ==>
              SellsToTarget(plan.value, reserves.value, avg.value, ratio, balances, feeBps)
    ensures plan.Some? && ratio.num > 0 ==>
              BuysToTarget(plan.value, reserves.value, avg.value, ratio, funds, feeBps)
  {
    if ratio.num == 0 || avg.None? || avg.value.num <= 0 || reserves.None? {
      return None;
    }
    var c, target := reserves.value, TargetPrice(avg.value, ratio);
    var current := WeiPerWholeToken(c.quote, c.tokens);
    if current.None? {
      return None;
    }
    ReachesIsWithin(c, avg.value, ratio);
    if ratio.num < 0 {
      if current.value.AtMost(target) {
        return None;
      }
      plan := PlanSellBatch(c, target, balances, feeBps);
      HeldIffPositive(balances);
      if plan.Some? {
        ShortestSellsToTarget(plan.value, c, avg.value, ratio, balances, feeBps);
      }
      return;
    }
    if c.quote == 0 {
      NothingFitsWithoutQuote(c, avg.value, ratio);
    } else {
      NeedIffOneUnitFits(c, avg.value, ratio, feeBps);
    }
    if target.AtMost(current.value) {
      if c.Live() {
        NothingFitsAtTarget(c, avg.value, ratio);
      }
      return None;
    }
    var needGross := GrossFromNet(QuoteNeededForPrice(c.quote, c.tokens, target), feeBps);
    if needGross <= 0 {
      return None;
    }
    FundsArePositive(funds, |funds|);
    plan := PlanBuyBatch(needGross, funds);
    if plan.Some? {
      NeedIsEnough(c, avg.value, ratio, feeBps, Sum(plan.value.spends), PrefixTokens(funds, |funds|));
    }
  }

  /** At or above the target no quote at all fits. */
  lemma NothingFitsAtTarget(c: Reserves, avg: Ratio, ratio: Ratio)
    requires c.Live() && avg.Valid() && ratio.Valid()
    requires TargetPrice(avg, ratio).AtMost(WeiPerWholeToken(c.quote, c.tokens).value)
    ensures !IdeallyWithin(c, 1, avg, ratio)
  {
    var target := TargetPrice(avg, ratio);
    IdealIsWithin(c, 1, avg, ratio);
    MulPos(avg.den, ratio.den);
    OneMoreIsDearer(c.quote, c.tokens, target.num, ONE_WHOLE_TOKEN * target.den);
    assert (c.quote * ONE_WHOLE_TOKEN) * target.den == c.quote * (ONE_WHOLE_TOKEN * target.den);
    assert ((c.quote + 1) * (c.quote + 1) * ONE_WHOLE_TOKEN) * target.den
        == ((c.quote + 1) * (c.quote + 1)) * (ONE_WHOLE_TOKEN * target.den);
  }

  lemma OneMoreIsDearer(q: int, t: int, worth: int, scale: int)
    requires 0 < q && 0 < t && 0 < scale && worth * t <= q * scale
    ensures worth * (q * t) < ((q + 1) * (q + 1)) * scale
  {
    MulMono(worth * t, q * scale, q);
    assert worth * (q * t) == (worth * t) * q;
    assert (q * scale) * q == (q * q) * scale;
    assert (q + 1) * (q + 1) == q * q + 2 * q + 1;
    MulMono(q * q + 1, (q + 1) * (q + 1), scale);
    assert (q * q + 1) * scale == (q * q) * scale + scale;
  }

  lemma NothingFitsWithoutQuote(c: Reserves, avg: Ratio, ratio: Ratio)
    requires c.quote == 0 && avg.Valid() && ratio.Valid()
    ensures !IdeallyWithin(c, 1, avg, ratio)
  {
    MulPos(ONE_WHOLE_TOKEN * avg.den, ratio.den);
  }
}
