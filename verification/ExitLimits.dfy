/** Exactly which exits can reject one of their own sells. */
module ExitLimits {
  import opened FloorMath
  import opened Curve
  import opened Decide
  import opened ExitPlan
  import opened TargetPlan
  import opened ExitRun

  // ---------------------------------------------------------------------
  // The least reserve that gives a floor
  // ---------------------------------------------------------------------

  /** The quotient rounded up. */
  function CeilDiv(a: int, d: int): (q: int)
    requires 0 < d
    ensures (q - 1) * d < a <= q * d
  {
    FloorDiv(a + d - 1, d);
    var q := (a + d - 1) / d;
    assert (q - 1) * d == q * d - d;
    q
  }

  lemma CeilAtMost(a: int, d: int, q: int)
    requires 0 < d && a <= q * d
    ensures CeilDiv(a, d) <= q
  {
    MulCancelStrict(CeilDiv(a, d) - 1, q, d);
  }

  /** The least quote reserve at which a quote for `quoted` tokens is worth 10000 * floor wei
      for each of `parts` parts. */
  function LeastReserve(tokens: int, quoted: int, parts: int, feeBps: int, floor: int): int
    requires feeBps < BPS_DENOM && 0 < quoted
  {
    CeilDiv(CeilDiv(100_000_000 * (floor * parts), KeptBps(feeBps)) * (tokens + quoted), quoted)
  }

  lemma KeptPositive(feeBps: int)
    requires feeBps < BPS_DENOM
    ensures 0 < KeptBps(feeBps) <= BPS_DENOM
  {
  }

  /** At the least reserve or above, the quote is worth that much. */
  lemma ReserveIsEnough(c: Reserves, quoted: int, parts: int, feeBps: int, floor: int)
    requires c.Live() && 0 < quoted && 0 < parts && 0 < floor && feeBps < BPS_DENOM
    requires LeastReserve(c.tokens, quoted, parts, feeBps, floor) <= c.quote
    ensures BPS_DENOM * (floor * parts) <= QuoteOutForTokens(c.quote, c.tokens, quoted, feeBps, 0)
  {
    var kept, d := KeptBps(feeBps), c.tokens + quoted;
    var gross := CeilDiv(100_000_000 * (floor * parts), kept);
    MulMono(LeastReserve(c.tokens, quoted, parts, feeBps, floor), c.quote, quoted);
    FloorAtLeast(gross, c.quote * quoted, d);
    MulMono(gross, GrossOut(c.quote, c.tokens, quoted), kept);
    FloorAtLeast(BPS_DENOM * (floor * parts), GrossOut(c.quote, c.tokens, quoted) * kept, BPS_DENOM);
  }

  /** Below the least reserve the quote is worth less. */
  lemma ReserveIsLeast(c: Reserves, quoted: int, parts: int, feeBps: int, floor: int)
    requires c.Live() && 0 < quoted && 0 < parts && 0 < floor && feeBps < BPS_DENOM
    requires BPS_DENOM * (floor * parts) <= QuoteOutForTokens(c.quote, c.tokens, quoted, feeBps, 0)
    ensures LeastReserve(c.tokens, quoted, parts, feeBps, floor) <= c.quote
  {
    var kept, d := KeptBps(feeBps), c.tokens + quoted;
    var gross := GrossOut(c.quote, c.tokens, quoted);
    FloorDiv(gross * kept, BPS_DENOM);
    MulMono(BPS_DENOM * (floor * parts), AfterFee(gross, feeBps), BPS_DENOM);
    CeilAtMost(100_000_000 * (floor * parts), kept, gross);
    FloorDiv(c.quote * quoted, d);
    var least := CeilDiv(100_000_000 * (floor * parts), kept);
    MulMono(least, gross, d);
    CeilAtMost(least * d, quoted, c.quote);
  }

  // ---------------------------------------------------------------------
  // Two wallets, the second with a single token
  // ---------------------------------------------------------------------

  /** The second wallet's token, sold last, still pays a floor of this many wei at the least
      reserve that gives it one. */
  predicate LastTokenPays(tokens: int, total: int, quoted: int, parts: int, feeBps: int, floor: int)
    requires feeBps < BPS_DENOM && 0 < quoted
  {
    var u := tokens + total;
    (GrossFromNet(floor, feeBps) * u - 1) * (u - 1) < LeastReserve(tokens, quoted, parts, feeBps, floor) * tokens
  }

  /** All tokens but one in the first wallet. */
  predicate TwoWallets(plans: seq<PlannedSell>, total: int) {
    |plans| == 2 && 1 < total && plans[0].amount == total - 1 && plans[1].amount == 1
  }

  lemma TwoWalletsTotal(plans: seq<PlannedSell>, total: int)
    requires TwoWallets(plans, total)
    ensures Amounts(plans) == [total - 1, 1] && Sum(Amounts(plans)) == total
  {
    assert Amounts(plans) == [total - 1, 1];
    assert Sum([total - 1, 1]) == total - 1 + Sum([1]);
  }

  /** What is left in the curve for the last token, when the reserve is no larger than this. */
  lemma LastTokenGross(c: Reserves, total: int, gross: int)
    requires c.Live() && 1 < total && 0 < gross
    requires c.quote * c.tokens <= (gross * (c.tokens + total) - 1) * (c.tokens + total - 1)
    ensures var d := SellStep(c, total - 1);
            d.Live() && d.tokens == c.tokens + total - 1 && GrossOut(d.quote, d.tokens, 1) < gross
  {
    var d, u := SellStep(c, total - 1), c.tokens + total;
    SellKeepsProduct(c, total - 1);
    LeftForLast(d.quote, c.quote * c.tokens, gross, u);
    FloorBelow(gross, d.quote * 1, u);
  }

  lemma LeftForLast(left: int, product: int, gross: int, u: int)
    requires 1 < u && product <= (gross * u - 1) * (u - 1) && left * (u - 1) < product + (u - 1)
    ensures left < gross * u
  {
    assert (gross * u - 1) * (u - 1) == (gross * u) * (u - 1) - (u - 1);
    MulCancelStrict(left, gross * u, u - 1);
  }

  /** Such an exit rejects its second sell. */
  lemma LastTokenMisses(c: Reserves, plans: seq<PlannedSell>, total: int, feeBps: int, floor: int)
    requires c.Live() && TwoWallets(plans, total) && feeBps < BPS_DENOM && 0 < floor
    requires BPS_DENOM * floor <= plans[1].quote
    requires c.quote * c.tokens <= (GrossFromNet(floor, feeBps) * (c.tokens + total) - 1) * (c.tokens + total - 1)
    ensures OnceEach([SellWallet(0), SellWallet(1)], 2, {})
    ensures !EveryFloorPaid(c, plans, [SellWallet(0), SellWallet(1)], feeBps)
  {
    var events := [SellWallet(0), SellWallet(1)];
    var d := SellStep(c, total - 1);
    GrossIsLeast(floor, feeBps, 0);
    assert 0 < GrossFromNet(floor, feeBps);
    LastTokenGross(c, total, GrossFromNet(floor, feeBps));
    var gross := GrossOut(d.quote, d.tokens, 1);
    FloorAtLeast(0, d.quote, d.tokens + 1);
    GrossIsLeast(floor, feeBps, gross);
    FloorAtLeast(floor, plans[1].quote, BPS_DENOM);
    assert events[1..] == [SellWallet(1)];
    assert !EveryFloorPaid(d, plans, [SellWallet(1)], feeBps);
  }

  // ---------------------------------------------------------------------
  // Which batch sizes are always paid
  // ---------------------------------------------------------------------

  /** A batch of `total` tokens, priced by a quote for at least as many and with whole-wei floors. */
  ghost predicate Exit(c: Reserves, plans: seq<PlannedSell>, total: int, quoted: int, feeBps: int,
                       events: seq<ExitEvent>) {
    && PricedFrom(plans, c, quoted, feeBps) && Sum(Amounts(plans)) == total <= quoted
    && WholeFloors(plans) && OnceEach(events, |plans|, {}) && OutsideSold(events) == 0
  }

  /** Whatever the quote reserve, the wallets, the order and the outside buys between, no
      exit of this many tokens rejects one of its own sells. */
  ghost predicate AlwaysPaid(tokens: int, total: int, feeBps: int) {
    forall c: Reserves, plans: seq<PlannedSell>, quoted: int, events: seq<ExitEvent> ::
      c.tokens == tokens && Exit(c, plans, total, quoted, feeBps, events) ==> EveryFloorPaid(c, plans, events, feeBps)
  }

  /** The last token of two wallets is paid, for every floor up to the basis points the fee keeps. */
  predicate LastTokenAlwaysPays(tokens: int, total: int, feeBps: int)
    requires feeBps < BPS_DENOM && 0 < total
  {
    forall floor :: 1 <= floor <= KeptBps(feeBps) ==> LastTokenPays(tokens, total, total, total, feeBps, floor)
  }

  lemma ShareOfSome(shared: int, total: int, floor: int, amount: int)
    requires 0 < total && 0 <= floor && 1 <= amount && (BPS_DENOM * floor) * total <= shared
    ensures BPS_DENOM * floor <= shared * amount / total
  {
    MulMono(0, BPS_DENOM * floor, total);
    MulMono(1, amount, shared);
    FloorAtLeast(BPS_DENOM * floor, shared * amount, total);
  }

  /** A quote worth 10000 * floor wei for each of n tokens gives two wallets their floors. */
  lemma SharesOfTwo(shared: int, total: int, floor: int)
    requires 1 < total && 0 < floor && BPS_DENOM * (floor * total) <= shared
    ensures BPS_DENOM * floor <= shared * 1 / total && BPS_DENOM * floor <= shared * (total - 1) / total
  {
    assert BPS_DENOM * (floor * total) == (BPS_DENOM * floor) * total;
    ShareOfSome(shared, total, floor, 1);
    ShareOfSome(shared, total, floor, total - 1);
  }

  lemma MissingFloor(tokens: int, total: int, feeBps: int, floor: int)
    requires 0 < tokens && 1 < total && feeBps < BPS_DENOM && 0 < floor
    requires !LastTokenPays(tokens, total, total, total, feeBps, floor)
    ensures !AlwaysPaid(tokens, total, feeBps)
  {
    var least := LeastReserve(tokens, total, total, feeBps, floor);
    LeastReservePositive(tokens, total, total, feeBps, floor);
    var c := Reserves(least, tokens);
    var shared := QuoteOutForTokens(least, tokens, total, feeBps, 0);
    var plans := [PlannedSell(0, total - 1, shared * (total - 1) / total), PlannedSell(1, 1, shared * 1 / total)];
    TwoWalletsTotal(plans, total);
    ReserveIsEnough(c, total, total, feeBps, floor);
    SharesOfTwo(shared, total, floor);
    assert SharedFor(c, total, total, feeBps) == shared;
    assert PricedFrom(plans, c, total, feeBps);
    FloorAtLeast(1, plans[0].quote, BPS_DENOM);
    FloorAtLeast(1, plans[1].quote, BPS_DENOM);
    LastTokenMisses(c, plans, total, feeBps, floor);
    assert Exit(c, plans, total, total, feeBps, [SellWallet(0), SellWallet(1)]);
  }

  lemma LeastReservePositive(tokens: int, quoted: int, parts: int, feeBps: int, floor: int)
    requires 0 < tokens && 0 < quoted && 0 < parts && 0 < floor && feeBps < BPS_DENOM
    ensures 0 < CeilDiv(100_000_000 * (floor * parts), KeptBps(feeBps))
    ensures 0 < LeastReserve(tokens, quoted, parts, feeBps, floor)
  {
    var gross := CeilDiv(100_000_000 * (floor * parts), KeptBps(feeBps));
    MulPos(floor, parts);
    MulCancelStrict(0, gross, KeptBps(feeBps));
    MulPos(gross, tokens + quoted);
    MulCancelStrict(0, LeastReserve(tokens, quoted, parts, feeBps, floor), quoted);
  }

  // --- every floor follows from those the fee keeps ---

  /** A floor higher by the basis points kept needs exactly 10000 wei more gross output. */
  lemma GrossPeriod(floor: nat, feeBps: int)
    requires feeBps < BPS_DENOM
    ensures GrossFromNet(floor + KeptBps(feeBps), feeBps) == GrossFromNet(floor, feeBps) + BPS_DENOM
  {
    var low, high := GrossFromNet(floor, feeBps), GrossFromNet(floor + KeptBps(feeBps), feeBps);
    PeriodPays(floor, feeBps, low);
    PeriodPays(floor, feeBps, high - BPS_DENOM);
  }

  lemma PeriodPays(floor: nat, feeBps: int, gross: int)
    requires feeBps < BPS_DENOM
    ensures GrossFromNet(floor, feeBps) <= gross <==> GrossFromNet(floor + KeptBps(feeBps), feeBps) <= gross + BPS_DENOM
  {
    var kept := KeptBps(feeBps);
    GrossPays(floor, feeBps, gross);
    GrossPays(floor + kept, feeBps, gross + BPS_DENOM);
    assert (gross + BPS_DENOM) * kept == gross * kept + BPS_DENOM * kept;
  }

  /** A gross output pays a floor exactly when its kept part covers it. */
  lemma GrossPays(floor: nat, feeBps: int, gross: int)
    requires feeBps < BPS_DENOM
    ensures GrossFromNet(floor, feeBps) <= gross <==> BPS_DENOM * floor <= gross * KeptBps(feeBps)
  {
    KeptPositive(feeBps);
    var kept := KeptBps(feeBps);
    if gross < 0 {
      MulMono(gross, -1, kept);
      GrossIsLeast(floor, feeBps, 0);
    } else {
      GrossIsLeast(floor, feeBps, gross);
      FloorDiv(gross * kept, BPS_DENOM);
      if floor <= AfterFee(gross, feeBps) {
        MulMono(floor, AfterFee(gross, feeBps), BPS_DENOM);
      } else {
        MulMono(AfterFee(gross, feeBps) + 1, floor, BPS_DENOM);
      }
    }
  }

  lemma CeilShift(a: int, d: int, k: int)
    requires 0 < d
    ensures CeilDiv(a + k * d, d) == CeilDiv(a, d) + k
  {
    var q := CeilDiv(a, d);
    assert (q + k) * d == q * d + k * d;
    assert (q + k - 1) * d == (q - 1) * d + k * d;
    CeilAtMost(a + k * d, d, q + k);
    MulCancelStrict(q + k - 1, CeilDiv(a + k * d, d), d);
  }

  /** And 10^8 wei more reserve for every token in the curve after the exit. */
  lemma ReservePeriod(tokens: int, total: int, feeBps: int, floor: int)
    requires 0 < tokens && 0 < total && feeBps < BPS_DENOM
    ensures LeastReserve(tokens, total, total, feeBps, floor + KeptBps(feeBps))
            == LeastReserve(tokens, total, total, feeBps, floor) + 100_000_000 * (tokens + total)
  {
    var kept, u := KeptBps(feeBps), tokens + total;
    KeptPositive(feeBps);
    var gross := CeilDiv(100_000_000 * (floor * total), kept);
    assert 100_000_000 * ((floor + kept) * total) == 100_000_000 * (floor * total) + (100_000_000 * total) * kept;
    CeilShift(100_000_000 * (floor * total), kept, 100_000_000 * total);
    assert (gross + 100_000_000 * total) * u == gross * u + (100_000_000 * u) * total;
    CeilShift(gross * u, total, 100_000_000 * u);
  }

  /** A floor of all the basis points kept takes 10000 wei of gross output and no rounding. */
  lemma FloorOfKept(tokens: int, total: int, feeBps: int)
    requires 0 < tokens && 0 < total && feeBps < BPS_DENOM
    ensures GrossFromNet(KeptBps(feeBps), feeBps) == BPS_DENOM
    ensures LeastReserve(tokens, total, total, feeBps, KeptBps(feeBps)) == 100_000_000 * (tokens + total)
  {
    GrossPeriod(0, feeBps);
    ReservePeriod(tokens, total, feeBps, 0);
    KeptPositive(feeBps);
    CeilOfZero(KeptBps(feeBps));
    CeilOfZero(total);
    assert 100_000_000 * (0 * total) == 0;
  }

  lemma CeilOfZero(d: int)
    requires 0 < d
    ensures CeilDiv(0, d) == 0
  {
    CeilAtMost(0, d, 0);
    MulCancelStrict(-1, CeilDiv(0, d), d);
  }

  /** Paying the floor of the basis points kept already bounds the batch by 10000 token reserves. */
  lemma PeriodBoundsBatch(tokens: int, total: int, feeBps: int)
    requires 0 < tokens && 0 < total && feeBps < BPS_DENOM
    requires LastTokenPays(tokens, total, total, total, feeBps, KeptBps(feeBps))
    ensures tokens + total - 1 <= BPS_DENOM * tokens
  {
    FloorOfKept(tokens, total, feeBps);
    BatchBound(tokens, tokens + total);
  }

  lemma BatchBound(tokens: int, u: int)
    requires 0 < tokens < u && (BPS_DENOM * u - 1) * (u - 1) < (100_000_000 * u) * tokens
    ensures u - 1 <= BPS_DENOM * tokens
  {
    var top := BPS_DENOM * u - 1;
    assert (BPS_DENOM * tokens + 1) * top == (100_000_000 * u) * tokens + BPS_DENOM * u - BPS_DENOM * tokens - 1;
    MulCancelStrict(u - 1, BPS_DENOM * tokens + 1, top);
  }

  lemma {:induction false} EveryFloorPays(tokens: int, total: int, feeBps: int, floor: nat)
    requires 0 < tokens && 0 < total && feeBps < BPS_DENOM && 1 <= floor
    requires LastTokenAlwaysPays(tokens, total, feeBps)
    ensures LastTokenPays(tokens, total, total, total, feeBps, floor)
    decreases floor
  {
    var kept, u := KeptBps(feeBps), tokens + total;
    KeptPositive(feeBps);
    if kept < floor {
      var low := floor - kept;
      EveryFloorPays(tokens, total, feeBps, low);
      PeriodBoundsBatch(tokens, total, feeBps);
      GrossPeriod(low, feeBps);
      ReservePeriod(tokens, total, feeBps, low);
      OnePeriodMore(tokens, u, GrossFromNet(low, feeBps), LeastReserve(tokens, total, total, feeBps, low));
    }
  }

  lemma OnePeriodMore(tokens: int, u: int, gross: int, least: int)
    requires 0 < u && u - 1 <= BPS_DENOM * tokens && (gross * u - 1) * (u - 1) < least * tokens
    ensures ((gross + BPS_DENOM) * u - 1) * (u - 1) < (least + 100_000_000 * u) * tokens
  {
    assert (gross + BPS_DENOM) * u - 1 == (gross * u - 1) + BPS_DENOM * u;
    assert ((gross * u - 1) + BPS_DENOM * u) * (u - 1) == (gross * u - 1) * (u - 1) + (BPS_DENOM * u) * (u - 1);
    assert (BPS_DENOM * u) * (u - 1) <= (BPS_DENOM * u) * (BPS_DENOM * tokens) by {
      MulMono(u - 1, BPS_DENOM * tokens, BPS_DENOM * u);
    }
    assert (BPS_DENOM * u) * (BPS_DENOM * tokens) == (100_000_000 * u) * tokens;
    assert (least + 100_000_000 * u) * tokens == least * tokens + (100_000_000 * u) * tokens;
  }

  // --- no other sell is harder to pay than the last token ---

  lemma CeilTwice(a: int, kept: int, u: int, total: int, q: int)
    requires 0 < kept && 0 <= u && 0 < total && (a + kept) * u <= (kept * q) * total
    ensures CeilDiv(CeilDiv(a, kept) * u, total) <= q
  {
    var gross := CeilDiv(a, kept);
    assert (gross - 1) * kept == gross * kept - kept;
    MulMono(gross * kept, a + kept, u);
    assert (gross * u) * kept == (gross * kept) * u;
    assert (q * total) * kept == (kept * q) * total;
    MulCancel(gross * u, q * total, kept);
    CeilAtMost(gross * u, total, q);
  }

  /** A reserve worth the floor at the curve's final size is within two wei of the least one. */
  lemma NearlyLeast(tokens: int, total: int, feeBps: int, floor: int, worth: int, slack: int)
    requires 0 < tokens < total && feeBps < BPS_DENOM && 0 < floor
    requires 100_000_000 * (floor * (tokens + total + slack)) <= KeptBps(feeBps) * worth && slack in {0, 1}
    ensures LeastReserve(tokens, total, total, feeBps, floor) <= worth + if slack == 0 then 2 else 0
  {
    KeptPositive(feeBps);
    NearlyWorth(floor, total, tokens + total, KeptBps(feeBps), worth, slack);
    CeilTwice(100_000_000 * (floor * total), KeptBps(feeBps), tokens + total, total,
              worth + if slack == 0 then 2 else 0);
  }

  lemma NearlyWorth(floor: int, total: int, u: int, kept: int, worth: int, slack: int)
    requires 0 < total < u < 2 * total && 0 < kept <= BPS_DENOM && 0 < floor && slack in {0, 1}
    requires 100_000_000 * (floor * (u + slack)) <= kept * worth
    ensures (100_000_000 * (floor * total) + kept) * u <= (kept * (worth + if slack == 0 then 2 else 0)) * total
  {
    MulMono(100_000_000 * (floor * (u + slack)), kept * worth, total);
    assert (100_000_000 * (floor * total) + kept) * u == 100_000_000 * ((floor * total) * u) + kept * u;
    assert (100_000_000 * (floor * (u + slack))) * total
        == 100_000_000 * ((floor * total) * u) + 100_000_000 * ((floor * total) * slack);
    MulMono(u, 2 * total, kept);
    if slack == 0 {
      assert (kept * (worth + 2)) * total == (kept * worth) * total + kept * (2 * total);
    } else {
      MulMono(kept, BPS_DENOM, 2 * total);
      MulMono(1, floor, total);
    }
  }

  /** A sell of one token, quoted for exactly the batch, is sent off at least the least reserve. */
  lemma OneTokenReserve(c: Reserves, plans: seq<PlannedSell>, i: nat, total: int, feeBps: int, floor: int)
    requires PricedFrom(plans, c, total, feeBps) && Sum(Amounts(plans)) == total && feeBps < BPS_DENOM
    requires i < |plans| && plans[i].amount == 1 && floor == ApplySlippage(plans[i].quote, SELL_SLIPPAGE_BPS)
    requires 0 < floor
    ensures LeastReserve(c.tokens, total, total, feeBps, floor) <= c.quote
  {
    var shared := QuoteOutForTokens(c.quote, c.tokens, total, feeBps, 0);
    assert shared * 1 == shared;
    WorthOfFloor(shared, total, plans[i].quote, floor);
    ReserveIsLeast(c, total, total, feeBps, floor);
  }

  lemma WorthOfFloor(shared: int, total: int, quote: int, floor: int)
    requires 0 < total && quote == shared / total && floor == ApplySlippage(quote, SELL_SLIPPAGE_BPS)
    ensures BPS_DENOM * (floor * total) <= shared
  {
    FloorDiv(quote, BPS_DENOM);
    FloorDiv(shared, total);
    MulMono(BPS_DENOM * floor, quote, total);
    assert BPS_DENOM * (floor * total) == (BPS_DENOM * floor) * total;
  }

  /** The reserve the exit was priced at reaches the least one, up to what a larger sell makes room for. */
  lemma ReserveOfSell(c: Reserves, plans: seq<PlannedSell>, i: nat, total: int, quoted: int, feeBps: int, floor: int)
    requires PricedFrom(plans, c, quoted, feeBps) && Sum(Amounts(plans)) == total <= quoted && feeBps < BPS_DENOM
    requires c.tokens < total
    requires i < |plans| && floor == ApplySlippage(plans[i].quote, SELL_SLIPPAGE_BPS) && 0 < floor
    ensures var least := LeastReserve(c.tokens, total, total, feeBps, floor);
            least <= c.quote * plans[i].amount + if plans[i].amount == 1 then 0 else 2
  {
    var amount := plans[i].amount;
    if amount == 1 && quoted == total {
      OneTokenReserve(c, plans, i, total, feeBps, floor);
    } else {
      var slack := if amount == 1 then 1 else 0;
      PricedFloors(plans, c, quoted, feeBps);
      SlackShare(floor, c.tokens + quoted, c.tokens + total + slack, KeptBps(feeBps), c.quote, amount);
      NearlyLeast(c.tokens, total, feeBps, floor, c.quote * amount, slack);
    }
  }

  lemma SlackShare(floor: int, m: int, u: int, kept: int, quote: int, amount: int)
    requires 0 < floor && u <= m && floor * (100_000_000 * m) <= (kept * quote) * (amount * 1)
    ensures 100_000_000 * (floor * u) <= kept * (quote * amount)
  {
    MulMono(u, m, floor);
    assert (kept * quote) * (amount * 1) == kept * (quote * amount);
  }

  lemma NoRoomForOne(tokens: int, room: int, least: int, quote: int)
    requires 0 < tokens && least <= quote && quote * tokens <= room
    ensures least * tokens <= room
  {
    MulMono(least, quote, tokens);
  }

  lemma NoRoomForMore(tokens: int, u: int, amount: int, top: int, least: int, worth: int)
    requires 0 < tokens && 2 <= amount && 2 * tokens <= top
    requires least <= worth + 2 && worth * tokens <= top * (u - amount)
    ensures least * tokens <= top * (u - 1)
  {
    MulMono(least, worth + 2, tokens);
    MulMono(u - amount, u - 2, top);
    assert top * (u - 1) == top * (u - 2) + top;
  }

  lemma NoRoomToMiss(tokens: int, u: int, amount: int, most: int, least: int, quote: int)
    requires 0 < tokens && 3 * tokens < u && 1 <= amount < u && 1 <= most
    requires least <= quote * amount + if amount == 1 then 0 else 2
    requires (quote * tokens) * amount <= (most * u - 1) * (u - amount)
    ensures least * tokens <= (most * u - 1) * (u - 1)
  {
    MulMono(1, most, u);
    assert (quote * tokens) * amount == (quote * amount) * tokens;
    if amount == 1 {
      NoRoomForOne(tokens, (most * u - 1) * (u - 1), least, quote);
    } else {
      NoRoomForMore(tokens, u, amount, most * u - 1, least, quote * amount);
    }
  }

  /** Where the last token is always paid, so is every sell of every exit. */
  lemma SellPaysExactly(c: Reserves, plans: seq<PlannedSell>, i: nat, total: int, quoted: int, feeBps: int, d: Reserves)
    requires PricedFrom(plans, c, quoted, feeBps) && Sum(Amounts(plans)) == total <= quoted && WholeFloors(plans)
    requires feeBps < BPS_DENOM && 2 * c.tokens < total && LastTokenAlwaysPays(c.tokens, total, feeBps)
    requires i < |plans| && Reachable(c, d, plans[i].amount, total)
    ensures PaysAt(plans, i, d, feeBps)
  {
    var floor, amount, u := ApplySlippage(plans[i].quote, SELL_SLIPPAGE_BPS), plans[i].amount, c.tokens + total;
    var gross, most := GrossOut(d.quote, d.tokens, amount), GrossFromNet(floor, feeBps);
    GrossBound(c, d, amount, total);
    GrossIsLeast(floor, feeBps, gross);
    EveryFloorPays(c.tokens, total, feeBps, floor);
    if gross < most {
      MissNeedsRoom(gross, most, u, amount, c.Product() * amount);
      ReserveOfSell(c, plans, i, total, quoted, feeBps, floor);
      NoRoomToMiss(c.tokens, u, amount, most, LeastReserve(c.tokens, total, total, feeBps, floor), c.quote);
      assert false;
    }
  }

  lemma MissNeedsRoom(gross: int, most: int, u: int, amount: int, worth: int)
    requires 0 <= gross < most && 0 < amount < u && worth <= ((gross + 1) * u - 1) * (u - amount)
    ensures worth <= (most * u - 1) * (u - amount)
  {
    MulMono(gross + 1, most, u);
    MulMono((gross + 1) * u - 1, most * u - 1, u - amount);
  }

  // --- the exact condition, and two simple ones around it ---

  /** A batch within the fee's room is always paid. */
  lemma WithinRoom(tokens: int, total: int, feeBps: int, c: Reserves, plans: seq<PlannedSell>, quoted: int,
                   events: seq<ExitEvent>)
    requires c.tokens == tokens && Exit(c, plans, total, quoted, feeBps, events)
    requires FeeRoom(feeBps) * (tokens + total - 1) <= 100_000_000 * tokens
    ensures EveryFloorPaid(c, plans, events, feeBps)
  {
    RoomIsAbsorbed(tokens, total, feeBps, tokens + quoted);
    NeverRejected(c, plans, quoted, feeBps, events);
  }

  lemma RoomIsAbsorbed(tokens: int, total: int, feeBps: int, x: int)
    requires 0 < tokens && 0 < tokens + total <= x && FeeRoom(feeBps) * (tokens + total - 1) <= 100_000_000 * tokens
    ensures Absorbed(tokens, total, feeBps, x, 1)
  {
    var u, room := tokens + total, FeeRoom(feeBps);
    MulMono(room * (u - 1), 100_000_000 * tokens, u);
    MulMono(u, x, tokens);
    assert room * ((u * (u - 1)) * 1) == (room * (u - 1)) * u;
    assert (100_000_000 * tokens) * u == 100_000_000 * (u * tokens);
  }

  /** At every fee a batch of up to 4999 token reserves is within the room. */
  lemma EveryFeeHasRoom(tokens: int, total: int, feeBps: int)
    requires 0 < tokens && total <= 4999 * tokens && feeBps < BPS_DENOM
    ensures FeeRoom(feeBps) * (tokens + total - 1) <= 100_000_000 * tokens
  {
    FeeRoomBounds(feeBps);
    MulMono(tokens + total - 1, 5000 * tokens, FeeRoom(feeBps));
    MulMono(FeeRoom(feeBps), 20_000, 5000 * tokens);
    assert FeeRoom(feeBps) * (5000 * tokens) <= 20_000 * (5000 * tokens);
  }

  /** A single token always pays, whatever its floor. */
  lemma OneTokenPays(tokens: int, feeBps: int, floor: nat)
    requires 0 < tokens && feeBps < BPS_DENOM && 1 <= floor
    ensures LastTokenPays(tokens, 1, 1, 1, feeBps, floor)
  {
    var gross, most, u := CeilDiv(100_000_000 * (floor * 1), KeptBps(feeBps)), GrossFromNet(floor, feeBps), tokens + 1;
    GrossPays(floor, feeBps, gross);
    MulMono(most, gross, u);
    assert LeastReserve(tokens, 1, 1, feeBps, floor) == gross * u;
    MulMono(most * u - 1 + 1, gross * u, tokens);
    assert (most * u - 1) * tokens == (most * u) * tokens - tokens;
  }

  /** Every exit of a batch is paid exactly when, for every floor the fee can keep, the last
      token of two wallets is. */
  lemma ExactlyPaid(tokens: int, total: int, feeBps: int)
    requires 0 < tokens && 0 < total && feeBps < BPS_DENOM
    ensures AlwaysPaid(tokens, total, feeBps) <==> LastTokenAlwaysPays(tokens, total, feeBps)
  {
    if LastTokenAlwaysPays(tokens, total, feeBps) {
      forall c: Reserves, plans: seq<PlannedSell>, quoted: int, events: seq<ExitEvent>
        | c.tokens == tokens && Exit(c, plans, total, quoted, feeBps, events)
        ensures EveryFloorPaid(c, plans, events, feeBps)
      {
        LastTokenSuffices(c, plans, total, quoted, feeBps, events);
      }
    } else {
      var floor :| 1 <= floor <= KeptBps(feeBps) && !LastTokenPays(tokens, total, total, total, feeBps, floor);
      if total == 1 {
        OneTokenPays(tokens, feeBps, floor);
      } else {
        MissingFloor(tokens, total, feeBps, floor);
      }
    }
  }

  lemma LastTokenSuffices(c: Reserves, plans: seq<PlannedSell>, total: int, quoted: int, feeBps: int,
                          events: seq<ExitEvent>)
    requires Exit(c, plans, total, quoted, feeBps, events)
    requires feeBps < BPS_DENOM && 0 < total && LastTokenAlwaysPays(c.tokens, total, feeBps)
    ensures EveryFloorPaid(c, plans, events, feeBps)
  {
    if total <= 4999 * c.tokens {
      EveryFeeHasRoom(c.tokens, total, feeBps);
      WithinRoom(c.tokens, total, feeBps, c, plans, quoted, events);
    } else {
      forall i: nat, d: Reserves | i < |plans| && Reachable(c, d, plans[i].amount, Sum(Amounts(plans)))
        ensures PaysAt(plans, i, d, feeBps)
      {
        SellPaysExactly(c, plans, i, total, quoted, feeBps, d);
      }
      PaysThroughoutIsSafe(c, plans, feeBps, events);
    }
  }

  /** A fee of everything leaves no exit with whole-wei floors to reject. */
  lemma NoExitAtFullFee(c: Reserves, plans: seq<PlannedSell>, total: int, quoted: int, feeBps: int,
                        events: seq<ExitEvent>)
    requires BPS_DENOM <= feeBps
    ensures !Exit(c, plans, total, quoted, feeBps, events)
  {
    if PricedFrom(plans, c, quoted, feeBps) {
      assert plans == [] ==> Amounts(plans) == [];
      PricedFloors(plans, c, quoted, feeBps);
      FullFeeFloor(ApplySlippage(plans[0].quote, SELL_SLIPPAGE_BPS), c.tokens + quoted, c.quote, plans[0].amount * 1,
                   feeBps);
    }
  }

  lemma FullFeeFloor(floor: int, x: int, quote: int, share: int, feeBps: int)
    requires BPS_DENOM <= feeBps && 0 < x && floor * (100_000_000 * x) <= (KeptBps(feeBps) * quote) * share
    ensures floor <= 0
  {
    assert (KeptBps(feeBps) * quote) * share == 0;
    MulCancel(floor, 0, 100_000_000 * x);
  }

  lemma CeilOver(a: int, d: int)
    requires 0 < d
    ensures CeilDiv(a, d) * d < a + d
  {
    assert (CeilDiv(a, d) - 1) * d == CeilDiv(a, d) * d - d;
  }

  /** A least reserve that leaves too little for the last token, for any quoted amount. */
  lemma Starved(tokens: int, total: int, quoted: int, parts: int, feeBps: int)
    requires 0 < tokens && 1 < total && 0 < quoted && 0 < parts && feeBps < BPS_DENOM
    requires (10_000 * (10_000 * parts + 1)) * (tokens * (tokens + quoted))
             <= FeeRoom(feeBps) * (quoted * ((tokens + total) * (tokens + total - 3)))
    ensures !LastTokenPays(tokens, total, quoted, parts, feeBps, 1)
  {
    var kept, one, u := KeptBps(feeBps), GrossFromNet(1, feeBps), tokens + total;
    var gross, least := CeilDiv(100_000_000 * (1 * parts), kept), LeastReserve(tokens, quoted, parts, feeBps, 1);
    KeptPositive(feeBps);
    FeeRoomBounds(feeBps);
    CeilOver(100_000_000 * (1 * parts), kept);
    CeilOver(gross * (tokens + quoted), quoted);
    StarvedReserve(tokens, quoted, u, kept, one, gross, least, 10_000 * (10_000 * parts + 1));
    StarvedBound(tokens, u, one, least);
  }

  lemma StarvedReserve(tokens: int, quoted: int, u: int, kept: int, one: int, gross: int, least: int, need: int)
    requires 0 < tokens && 0 < quoted && 0 < kept && gross * kept <= need
    requires least * quoted <= gross * (tokens + quoted) + quoted
    requires need * (tokens * (tokens + quoted)) <= (kept * one) * (quoted * (u * (u - 3)))
    ensures least * tokens <= one * (u * (u - 3)) + tokens
  {
    var span := tokens * (tokens + quoted);
    MulPos(tokens, tokens + quoted);
    StarvedGross(span, quoted, kept, one * (u * (u - 3)), gross, need) by {
      assert (kept * one) * (quoted * (u * (u - 3))) == (kept * (one * (u * (u - 3)))) * quoted;
    }
    assert gross * (tokens + quoted) * tokens == gross * span;
    StarvedLeast(tokens, quoted, one * (u * (u - 3)), gross * (tokens + quoted), least);
  }

  lemma StarvedGross(span: int, quoted: int, kept: int, room: int, gross: int, need: int)
    requires 0 < span && 0 < kept && gross * kept <= need && need * span <= (kept * room) * quoted
    ensures gross * span <= room * quoted
  {
    MulMono(gross * kept, need, span);
    assert (gross * span) * kept == (gross * kept) * span;
    assert (kept * room) * quoted == (room * quoted) * kept;
    MulCancel(gross * span, room * quoted, kept);
  }

  lemma StarvedLeast(tokens: int, quoted: int, room: int, top: int, least: int)
    requires 0 < tokens && 0 < quoted && least * quoted <= top + quoted && top * tokens <= room * quoted
    ensures least * tokens <= room + tokens
  {
    MulMono(least * quoted, top + quoted, tokens);
    assert (top + quoted) * tokens == top * tokens + tokens * quoted;
    assert (least * tokens) * quoted == (least * quoted) * tokens;
    assert (room + tokens) * quoted == room * quoted + tokens * quoted;
    MulCancel(least * tokens, room + tokens, quoted);
  }

  lemma StarvedBound(tokens: int, u: int, one: int, least: int)
    requires 0 < tokens < u && 1 <= one && least * tokens <= one * (u * (u - 3)) + tokens
    ensures least * tokens <= (one * u - 1) * (u - 1)
  {
    MulMono(1, one, u);
    assert one * (u * (u - 3)) == (one * u) * (u - 1) - 2 * (one * u);
    assert (one * u - 1) * (u - 1) == (one * u) * (u - 1) - (u - 1);
  }

  /** Where the fee's room falls short by two tokens, some exit rejects its own last sell. */
  lemma BeyondRoom(tokens: int, total: int, feeBps: int)
    requires 0 < tokens && 1 < total && feeBps < BPS_DENOM
    requires 100_000_000 * tokens <= FeeRoom(feeBps) * (tokens + total - 2)
    ensures !AlwaysPaid(tokens, total, feeBps)
  {
    var kept, u := KeptBps(feeBps), tokens + total;
    KeptPositive(feeBps);
    FeeRoomBounds(feeBps);
    MulMono(FeeRoom(feeBps), 20_000, u - 2);
    if kept == BPS_DENOM {
      NoFeeReserve(tokens, total, feeBps);
      ShortByTwoNoFee(tokens, u);
    } else {
      var worth := WorthOfOne(tokens, total, feeBps);
      ShortByTwo(tokens, u, kept, GrossFromNet(1, feeBps), worth, LeastReserve(tokens, total, total, feeBps, 1));
    }
    MissingFloor(tokens, total, feeBps, 1);
  }

  lemma ShortByTwoNoFee(tokens: int, u: int)
    requires 10_000 * tokens <= u - 2 && 0 < u
    ensures (10_000 * u) * tokens <= (1 * u - 1) * (u - 1)
  {
    MulMono(10_000 * tokens, u - 2, u);
    assert (u - 1) * (u - 1) == (u - 2) * u + 1;
    assert (10_000 * u) * tokens == (10_000 * tokens) * u;
  }

  lemma WorthOfOne(tokens: int, total: int, feeBps: int) returns (worth: int)
    requires 0 < tokens < total && feeBps < BPS_DENOM
    ensures worth * KeptBps(feeBps) <= 100_000_000 * (tokens + total) + KeptBps(feeBps)
    ensures LeastReserve(tokens, total, total, feeBps, 1) <= worth + 2
  {
    var u, kept := tokens + total, KeptBps(feeBps);
    KeptPositive(feeBps);
    worth := CeilDiv(100_000_000 * u, kept);
    assert (worth - 1) * kept == worth * kept - kept;
    NearlyLeast(tokens, total, feeBps, 1, worth, 0);
  }

  lemma NoFeeReserve(tokens: int, total: int, feeBps: int)
    requires 0 < tokens && 0 < total && KeptBps(feeBps) == BPS_DENOM && feeBps < BPS_DENOM
    ensures GrossFromNet(1, feeBps) == 1 && LeastReserve(tokens, total, total, feeBps, 1) == 10_000 * (tokens + total)
  {
    CeilShift(0, BPS_DENOM, 10_000 * total);
    CeilOfZero(BPS_DENOM);
    assert 100_000_000 * (1 * total) == 0 + (10_000 * total) * BPS_DENOM;
    CeilShift(0, total, 10_000 * (tokens + total));
    CeilOfZero(total);
    assert (10_000 * total) * (tokens + total) == 0 + (10_000 * (tokens + total)) * total;
  }

  lemma ShortByTwo(tokens: int, u: int, kept: int, one: int, worth: int, least: int)
    requires 0 < tokens && 0 < kept < BPS_DENOM <= kept * one && 5000 * tokens <= u
    requires 100_000_000 * tokens <= (kept * one) * (u - 2) && worth * kept <= 100_000_000 * u + kept
    requires least <= worth + 2
    ensures (one * u - 1) * (u - 1) >= least * tokens
  {
    TwoAtLeast(kept, one);
    ShortWorth(tokens, u, kept, one, worth);
    MulMono(least, worth + 2, tokens);
    MulMono(2, one, u);
    assert (one * u - 1) * (u - 1) == (one * u) * (u - 2) + one * u - (u - 1);
  }

  lemma TwoAtLeast(kept: int, one: int)
    requires 0 < kept < BPS_DENOM <= kept * one
    ensures 2 <= one
  {
    MulCancelStrict(1, one, kept) by {
      assert one * kept == kept * one;
    }
  }

  lemma ShortWorth(tokens: int, u: int, kept: int, one: int, worth: int)
    requires 0 < tokens && 0 < kept && 0 < u
    requires 100_000_000 * tokens <= (kept * one) * (u - 2) && worth * kept <= 100_000_000 * u + kept
    ensures worth * tokens <= (one * u) * (u - 2) + tokens
  {
    var room := (one * u) * (u - 2);
    MulMono(worth * kept, 100_000_000 * u + kept, tokens);
    MulMono(100_000_000 * tokens, (kept * one) * (u - 2), u);
    assert (100_000_000 * u + kept) * tokens == (100_000_000 * tokens) * u + kept * tokens;
    assert ((kept * one) * (u - 2)) * u == room * kept;
    assert (worth * tokens) * kept == (worth * kept) * tokens;
    assert (room + tokens) * kept == room * kept + kept * tokens;
    MulCancel(worth * tokens, room + tokens, kept);
  }

  /** When the fee's room divides the reserve, it is the exact limit. */
  lemma RoomIsExact(tokens: int, total: int, feeBps: int)
    requires 0 < tokens && 0 < total && feeBps < BPS_DENOM && FeeRoom(feeBps) != 0
    requires (100_000_000 * tokens) % FeeRoom(feeBps) == 0
    ensures AlwaysPaid(tokens, total, feeBps) <==> FeeRoom(feeBps) * (tokens + total - 1) <= 100_000_000 * tokens
  {
    var room, u := FeeRoom(feeBps), tokens + total;
    FeeRoomBounds(feeBps);
    if room * (u - 1) <= 100_000_000 * tokens {
      forall c: Reserves, plans: seq<PlannedSell>, quoted: int, events: seq<ExitEvent>
        | c.tokens == tokens && Exit(c, plans, total, quoted, feeBps, events)
        ensures EveryFloorPaid(c, plans, events, feeBps)
      {
        WithinRoom(tokens, total, feeBps, c, plans, quoted, events);
      }
    } else {
      NextMultiple(100_000_000 * tokens, room, u - 1);
      if total == 1 {
        MulMono(room, 100_000_000, tokens);
      }
      BeyondRoom(tokens, total, feeBps);
    }
  }

  lemma NextMultiple(a: int, d: int, k: int)
    requires 0 < d && a % d == 0 && a < d * k
    ensures a <= d * (k - 1)
  {
    var q := a / d;
    assert a == q * d;
    MulCancelStrict(q, k, d);
    MulMono(q, k - 1, d);
  }

  /** Without a fee the limit is 9999 token reserves and one token. */
  lemma NoFeeLimit(tokens: int, total: int)
    requires 0 < tokens && 0 < total
    ensures AlwaysPaid(tokens, total, 0) <==> total <= 9999 * tokens + 1
  {
    assert FeeRoom(0) == 10_000;
    RoomIsExact(tokens, total, 0);
  }

  // ---------------------------------------------------------------------
  // Quotes for another amount
  // ---------------------------------------------------------------------

  /** Not rescaled, a quote for enough more than the batch rejects the last of two sells. */
  lemma UnscaledMisses(tokens: int, total: int, quoted: int, feeBps: int) returns (c: Reserves, plans: seq<PlannedSell>)
    requires 0 < tokens && 1 < total && 0 < quoted && feeBps < BPS_DENOM
    requires (10_000 * (10_000 * total + 1)) * (tokens * (tokens + quoted))
             <= FeeRoom(feeBps) * (quoted * ((tokens + total) * (tokens + total - 3)))
    ensures c.tokens == tokens && PricedUnscaled(plans, c, quoted, feeBps) && Sum(Amounts(plans)) == total
    ensures WholeFloors(plans)
    ensures |plans| == 2 && OnceEach([SellWallet(0), SellWallet(1)], 2, {})
    ensures !EveryFloorPaid(c, plans, [SellWallet(0), SellWallet(1)], feeBps)
  {
    c := Reserves(LeastReserve(tokens, quoted, total, feeBps, 1), tokens);
    LeastReservePositive(tokens, quoted, total, feeBps, 1);
    var q := QuoteOutForTokens(c.quote, c.tokens, quoted, feeBps, 0);
    plans := [PlannedSell(0, total - 1, q * (total - 1) / total), PlannedSell(1, 1, q * 1 / total)];
    TwoWalletsTotal(plans, total);
    ReserveIsEnough(c, quoted, total, feeBps, 1);
    SharesOfTwo(q, total, 1);
    WholeFromQuotes(plans);
    Starved(tokens, total, quoted, total, feeBps);
    LastTokenMisses(c, plans, total, feeBps, 1);
  }

  lemma WholeFromQuotes(plans: seq<PlannedSell>)
    requires forall i :: 0 <= i < |plans| ==> BPS_DENOM <= plans[i].quote
    ensures WholeFloors(plans)
  {
    forall i | 0 <= i < |plans|
      ensures 1 <= ApplySlippage(plans[i].quote, SELL_SLIPPAGE_BPS)
    {
      FloorAtLeast(1, plans[i].quote, BPS_DENOM);
    }
  }

  /** Rescaled from a quote for any amount, so does a batch that is large enough. */
  lemma RescaledMisses(tokens: int, total: int, quoted: int, feeBps: int) returns (c: Reserves, plans: seq<PlannedSell>)
    requires 0 < tokens && 1 < total && 0 < quoted && feeBps < BPS_DENOM
    requires (10_000 * (10_000 * quoted + 1)) * (tokens * (tokens + quoted))
             <= FeeRoom(feeBps) * (quoted * ((tokens + total) * (tokens + total - 3)))
    ensures c.tokens == tokens && PricedFrom(plans, c, quoted, feeBps) && Sum(Amounts(plans)) == total
    ensures WholeFloors(plans)
    ensures |plans| == 2 && OnceEach([SellWallet(0), SellWallet(1)], 2, {})
    ensures !EveryFloorPaid(c, plans, [SellWallet(0), SellWallet(1)], feeBps)
  {
    c := Reserves(LeastReserve(tokens, quoted, quoted, feeBps, 1), tokens);
    LeastReservePositive(tokens, quoted, quoted, feeBps, 1);
    var q, shared := QuoteOutForTokens(c.quote, c.tokens, quoted, feeBps, 0), SharedFor(c, quoted, total, feeBps);
    plans := [PlannedSell(0, total - 1, shared * (total - 1) / total), PlannedSell(1, 1, shared * 1 / total)];
    TwoWalletsTotal(plans, total);
    ReserveIsEnough(c, quoted, quoted, feeBps, 1);
    RescaledWorth(q, quoted, total);
    SharesOfTwo(shared, total, 1);
    WholeFromQuotes(plans);
    Starved(tokens, total, quoted, quoted, feeBps);
    LastTokenMisses(c, plans, total, feeBps, 1);
  }

  lemma RescaledWorth(q: int, quoted: int, total: int)
    requires 0 < quoted && 0 < total && BPS_DENOM * (1 * quoted) <= q
    ensures BPS_DENOM * (1 * total) <= q * total / quoted
  {
    MulMono(BPS_DENOM * quoted, q, total);
    assert (BPS_DENOM * total) * quoted == (BPS_DENOM * quoted) * total;
    FloorAtLeast(BPS_DENOM * total, q * total, quoted);
  }

  // ---------------------------------------------------------------------
  // Floors clamped up to one wei
  // ---------------------------------------------------------------------

  /** Without whole-wei floors no size is safe: at a quote reserve of one wei every batch of
      any wallets has its floors clamped up to one wei and misses the first. */
  lemma ClampedFloorMisses(tokens: int, plans: seq<PlannedSell>, feeBps: int)
    requires 0 < tokens && plans != [] && forall i :: 0 <= i < |plans| ==> 0 < plans[i].amount && plans[i].quote == 0
    ensures PricedFrom(plans, Reserves(1, tokens), Sum(Amounts(plans)), feeBps)
    ensures OnceEach([SellWallet(0)], |plans|, {})
    ensures !EveryFloorPaid(Reserves(1, tokens), plans, [SellWallet(0)], feeBps)
  {
    var c, total := Reserves(1, tokens), Sum(Amounts(plans));
    SumNonNegative(Amounts(plans));
    assert 0 < Amounts(plans)[0] <= total;
    ThinReserve(tokens, total, feeBps);
    ThinReserve(tokens, plans[0].amount, feeBps);
    assert SharedFor(c, total, total, feeBps) == 0;
    forall i | 0 <= i < |plans|
      ensures plans[i].quote == SharedFor(c, total, total, feeBps) * plans[i].amount / total
    {
      ExactQuotient(0, total, 0);
    }
    assert [SellWallet(0)][1..] == [];
  }

  lemma ThinReserve(tokens: int, amount: int, feeBps: int)
    requires 0 < tokens && 0 < amount
    ensures QuoteOutForTokens(1, tokens, amount, feeBps, 0) == 0
  {
    FloorBelow(1, 1 * amount, tokens + amount);
    FloorAtLeast(0, 1 * amount, tokens + amount);
    assert GrossOut(1, tokens, amount) == 0;
  }

  /** Nor is any exit safe from outsiders who sell without limit: once they have sold as many tokens as the
      product of the reserves, one wei is left and the next sell is paid nothing. */
  lemma EnoughSellingMisses(c: Reserves, plans: seq<PlannedSell>, feeBps: int)
    requires c.Live() && plans != [] && 0 < plans[0].amount && WholeFloors(plans)
    ensures 0 < c.Product() && OnceEach([OutsideSell(c.Product()), SellWallet(0)], |plans|, {})
    ensures !EveryFloorPaid(c, plans, [OutsideSell(c.Product()), SellWallet(0)], feeBps)
  {
    MulPos(c.quote, c.tokens);
    var d := SellStep(c, c.Product());
    SellKeepsProduct(c, c.Product());
    MulCancelStrict(d.quote, 2, d.tokens);
    ThinReserve(d.tokens, plans[0].amount, feeBps);
    var events := [OutsideSell(c.Product()), SellWallet(0)];
    assert events[1..] == [SellWallet(0)] && [SellWallet(0)][1..] == [];
    assert !EveryFloorPaid(d, plans, [SellWallet(0)], feeBps);
  }

  lemma ClampedSharesPriced(tokens: int, total: int)
    requires 0 < tokens && 1 < total
    ensures var c := Reserves(tokens + total, tokens);
            var plans := [PlannedSell(0, total - 1, total - 1), PlannedSell(1, 1, 1)];
            PricedFrom(plans, c, total, 0) && Sum(Amounts(plans)) == total
  {
    var c, plans := Reserves(tokens + total, tokens), [PlannedSell(0, total - 1, total - 1), PlannedSell(1, 1, 1)];
    TwoWalletsTotal(plans, total);
    ExactQuotient(total, tokens + total, (tokens + total) * total);
    ExactQuotient(total - 1, total, total * (total - 1));
    ExactQuotient(1, total, total * 1);
    assert SharedFor(c, total, total, 0) == total;
  }

  lemma ClampedLastToken(tokens: int, total: int)
    requires 0 < tokens && 1 < total
    ensures var d := SellStep(Reserves(tokens + total, tokens), total - 1);
            d.Live() && d.tokens == tokens + total - 1 && QuoteOutForTokens(d.quote, d.tokens, 1, 0, 0) == 0
  {
    var c, u := Reserves(tokens + total, tokens), tokens + total;
    MulMono(tokens, u - 2, u);
    assert (u - 1) * (u - 1) == u * (u - 2) + 1;
    LastTokenGross(c, total, 1);
    var d := SellStep(c, total - 1);
    FloorAtLeast(0, d.quote * 1, d.tokens + 1);
  }

  /** The same with every quote positive: for every token reserve and batch size, the last
      token of two wallets is quoted one wei and paid none. */
  lemma ClampedShareMisses(tokens: int, total: int)
    requires 0 < tokens && 1 < total
    ensures var c := Reserves(tokens + total, tokens);
            var plans := [PlannedSell(0, total - 1, total - 1), PlannedSell(1, 1, 1)];
            && PricedFrom(plans, c, total, 0) && Sum(Amounts(plans)) == total
            && OnceEach([SellWallet(0), SellWallet(1)], 2, {})
            && !EveryFloorPaid(c, plans, [SellWallet(0), SellWallet(1)], 0)
  {
    var plans, events := [PlannedSell(0, total - 1, total - 1), PlannedSell(1, 1, 1)], [SellWallet(0), SellWallet(1)];
    ClampedSharesPriced(tokens, total);
    ClampedLastToken(tokens, total);
    assert events[1..] == [SellWallet(1)];
    assert !EveryFloorPaid(SellStep(Reserves(tokens + total, tokens), total - 1), plans, [SellWallet(1)], 0);
  }
}
