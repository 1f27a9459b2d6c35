/** What the planned sells of an exit pay when they land on the curve one after
    another: within a size that depends on the fee, no sell misses its own floor. */
module ExitRun {
  import opened FloorMath
  import opened Curve
  import opened Decide
  import opened ExitPlan
  import opened TargetPlan

  // ---------------------------------------------------------------------
  // No sell of a concurrent exit is rejected
  // ---------------------------------------------------------------------

  /** What may reach the curve during an exit: a planned sell, or an outsider buying or selling. */
  datatype ExitEvent = SellWallet(i: nat) | OutsideBuy(spend: int, feeBps: int) | OutsideSell(tokens: nat)

  /** No planned sell lands twice, and none that already landed lands again. */
  predicate OnceEach(events: seq<ExitEvent>, n: nat, done: set<nat>) {
    if events == [] then true
    else match events[0]
         case SellWallet(i) => i < n && i !in done && OnceEach(events[1..], n, done + {i})
         case OutsideBuy(_, _) => OnceEach(events[1..], n, done)
         case OutsideSell(_) => OnceEach(events[1..], n, done)
  }

  /** Tokens that outsiders sell during the exit. */
  function OutsideSold(events: seq<ExitEvent>): nat {
    if events == [] then 0
    else (if events[0].OutsideSell? then events[0].tokens else 0) + OutsideSold(events[1..])
  }

  /** Every sell that lands pays at least the minimum output it was sent with. */
  predicate EveryFloorPaid(c: Reserves, plans: seq<PlannedSell>, events: seq<ExitEvent>, feeBps: int)
    requires c.Live()
    decreases |events|
  {
    if events == [] then true
    else match events[0]
         case SellWallet(i) =>
           SellKeepsProduct(c, if i < |plans| then plans[i].amount else 0);
           && i < |plans|
           && MinOut(plans[i].quote) <= QuoteOutForTokens(c.quote, c.tokens, plans[i].amount, feeBps, 0)
           && EveryFloorPaid(SellStep(c, plans[i].amount), plans, events[1..], feeBps)
         case OutsideBuy(spend, buyerFee) =>
           BuyKeepsProduct(c, spend, buyerFee);
           EveryFloorPaid(BuyStep(c, spend, buyerFee), plans, events[1..], feeBps)
         case OutsideSell(tokens) =>
           SellKeepsProduct(c, tokens);
           EveryFloorPaid(SellStep(c, tokens), plans, events[1..], feeBps)
  }

  /** Every floor is at least one wei before it is clamped. */
  ghost predicate WholeFloors(plans: seq<PlannedSell>) {
    forall i :: 0 <= i < |plans| ==> 1 <= ApplySlippage(plans[i].quote, SELL_SLIPPAGE_BPS)
  }

  lemma ChainBound(q: int, den: int, gross: int, kept: int, u: int, worth: int)
    requires q * den <= gross * kept && gross * u <= worth && 0 <= kept && 0 <= u
    ensures q * (den * u) <= kept * worth
  {
    MulMono(q * den, gross * kept, u);
    MulMono(gross * u, worth, kept);
    assert q * (den * u) == (q * den) * u;
    assert (gross * kept) * u == (gross * u) * kept;
  }

  lemma RescaleBound(q: int, shared: int, price: int, quoted: int, total: int, d: int)
    requires 0 < quoted && 0 <= total && 0 <= d
    requires q * d <= price * quoted
    requires shared * quoted <= q * total
    ensures shared * d <= price * total
  {
    MulMono(shared * quoted, q * total, d);
    MulMono(q * d, price * quoted, total);
    assert (shared * d) * quoted == (shared * quoted) * d;
    assert (q * total) * d == (q * d) * total;
    assert (price * quoted) * total == (price * total) * quoted;
    MulCancel(shared * d, price * total, quoted);
  }

  /** A one-hop quote never beats the marginal price at its own size. */
  lemma QuoteBound(c: Reserves, quoted: int, feeBps: int)
    requires c.Live() && 0 < quoted
    ensures var q := QuoteOutForTokens(c.quote, c.tokens, quoted, feeBps, 0);
            0 <= q && q * (BPS_DENOM * (c.tokens + quoted)) <= (KeptBps(feeBps) * c.quote) * quoted
  {
    var gross := GrossOut(c.quote, c.tokens, quoted);
    MulPos(c.quote, quoted);
    FloorDiv(c.quote * quoted, c.tokens + quoted);
    FloorAtLeast(0, c.quote * quoted, c.tokens + quoted);
    FloorDiv(gross * KeptBps(feeBps), BPS_DENOM);
    ChainBound(AfterFee(gross, feeBps), BPS_DENOM, gross, KeptBps(feeBps), c.tokens + quoted, c.quote * quoted);
    assert KeptBps(feeBps) * (c.quote * quoted) == (KeptBps(feeBps) * c.quote) * quoted;
  }

  /** However it is rescaled, the shared quote values no token above the marginal price at the quoted size. */
  lemma SharedQuoteBound(c: Reserves, quoted: int, total: int, feeBps: int)
    requires c.Live() && 0 < quoted && 0 < total
    ensures var shared := SharedFor(c, quoted, total, feeBps);
            0 <= shared && shared * (BPS_DENOM * (c.tokens + quoted)) <= (KeptBps(feeBps) * c.quote) * total
  {
    var q := QuoteOutForTokens(c.quote, c.tokens, quoted, feeBps, 0);
    QuoteBound(c, quoted, feeBps);
    if quoted != total {
      FloorDiv(q * total, quoted);
      MulMono(0, q, total);
      FloorAtLeast(0, q * total, quoted);
      RescaleBound(q, q * total / quoted, KeptBps(feeBps) * c.quote, quoted, total, BPS_DENOM * (c.tokens + quoted));
    }
  }

  // ---------------------------------------------------------------------
  // Floors seen from the pre-exit reserves
  // ---------------------------------------------------------------------

  /** Each floor is at most the sell's share of the pre-exit quote, weighed by y over x. */
  ghost predicate FloorsBelow(plans: seq<PlannedSell>, c: Reserves, feeBps: int, x: int, y: int) {
    && c.Live() && 0 < x && 0 < y
    && (forall i :: 0 <= i < |plans| ==> 0 < plans[i].amount)
    && forall i :: 0 <= i < |plans| ==>
         ApplySlippage(plans[i].quote, SELL_SLIPPAGE_BPS) * (100_000_000 * x)
         <= (KeptBps(feeBps) * c.quote) * (plans[i].amount * y)
  }

  lemma FloorOfShare(shared: int, quote: int, amount: int, total: int, m: int, price: int)
    requires 0 < total && 0 < amount && 0 < m && quote == shared * amount / total
    requires shared * (BPS_DENOM * m) <= price * total
    ensures ApplySlippage(quote, SELL_SLIPPAGE_BPS) * (100_000_000 * m) <= price * amount
  {
    var floor := ApplySlippage(quote, SELL_SLIPPAGE_BPS);
    FloorDiv(shared * amount, total);
    RescaleBound(shared, quote, price, total, amount, BPS_DENOM * m);
    FloorDiv(quote, BPS_DENOM);
    MulMono(floor * BPS_DENOM, quote, BPS_DENOM * m);
    assert floor * (100_000_000 * m) == (floor * BPS_DENOM) * (BPS_DENOM * m);
  }

  /** A plan priced by a quote in proportion: x is the token reserve the quote was taken at. */
  lemma PricedFloors(plans: seq<PlannedSell>, c: Reserves, quoted: int, feeBps: int)
    requires PricedFrom(plans, c, quoted, feeBps)
    ensures FloorsBelow(plans, c, feeBps, c.tokens + quoted, 1)
  {
    var total := Sum(Amounts(plans));
    SharedQuoteBound(c, quoted, total, feeBps);
    forall i | 0 <= i < |plans|
      ensures ApplySlippage(plans[i].quote, SELL_SLIPPAGE_BPS) * (100_000_000 * (c.tokens + quoted))
              <= (KeptBps(feeBps) * c.quote) * (plans[i].amount * 1)
    {
      FloorOfShare(SharedFor(c, quoted, total, feeBps), plans[i].quote, plans[i].amount, total,
                   c.tokens + quoted, KeptBps(feeBps) * c.quote);
    }
  }

  /** A plan priced by an unscaled quote: the quoted amount weighs against the batch's own. */
  lemma UnscaledFloors(plans: seq<PlannedSell>, c: Reserves, quoted: int, feeBps: int)
    requires PricedUnscaled(plans, c, quoted, feeBps)
    ensures FloorsBelow(plans, c, feeBps, (c.tokens + quoted) * Sum(Amounts(plans)), quoted)
  {
    var total, q := Sum(Amounts(plans)), QuoteOutForTokens(c.quote, c.tokens, quoted, feeBps, 0);
    QuoteBound(c, quoted, feeBps);
    MulPos(c.tokens + quoted, total);
    forall i | 0 <= i < |plans|
      ensures ApplySlippage(plans[i].quote, SELL_SLIPPAGE_BPS) * (100_000_000 * ((c.tokens + quoted) * total))
              <= (KeptBps(feeBps) * c.quote) * (plans[i].amount * quoted)
    {
      UnscaledShare(q, plans[i].quote, plans[i].amount, total, c.tokens + quoted, KeptBps(feeBps) * c.quote, quoted);
    }
  }

  lemma UnscaledShare(q: int, quote: int, amount: int, total: int, m: int, price: int, quoted: int)
    requires 0 < total && 0 < amount && 0 < m && 0 < quoted && quote == q * amount / total
    requires q * (BPS_DENOM * m) <= price * quoted
    ensures ApplySlippage(quote, SELL_SLIPPAGE_BPS) * (100_000_000 * (m * total)) <= price * (amount * quoted)
  {
    var floor := ApplySlippage(quote, SELL_SLIPPAGE_BPS);
    FloorDiv(q * amount, total);
    FloorDiv(quote, BPS_DENOM);
    assert (floor * BPS_DENOM) * total <= q * amount by {
      MulMono(floor * BPS_DENOM, quote, total);
    }
    MulMono((floor * BPS_DENOM) * total, q * amount, BPS_DENOM * m);
    MulMono(q * (BPS_DENOM * m), price * quoted, amount);
    assert floor * (100_000_000 * (m * total)) == ((floor * BPS_DENOM) * total) * (BPS_DENOM * m);
    assert (q * amount) * (BPS_DENOM * m) == (q * (BPS_DENOM * m)) * amount;
    assert (price * quoted) * amount == price * (amount * quoted);
  }

  // ---------------------------------------------------------------------
  // One sell at any later reserves
  // ---------------------------------------------------------------------

  /** Reserves at which the exit can still sell the amount: the product never fell, and no more tokens
      are in the curve than the rest of the total, the exit's and the outsiders', left room for. */
  predicate Reachable(c: Reserves, d: Reserves, amount: int, total: int) {
    d.Live() && c.Product() <= d.Product() && d.tokens + amount <= c.tokens + total
  }

  /** The gross output at any reserves the exit can reach, against the pre-exit product. */
  lemma GrossBound(c: Reserves, d: Reserves, amount: int, total: int)
    requires c.Live() && 0 < amount && Reachable(c, d, amount, total)
    ensures var gross, u := GrossOut(d.quote, d.tokens, amount), c.tokens + total;
            && 0 <= gross
            && c.Product() * amount <= ((gross + 1) * u - 1) * (u - amount)
            && 0 < u - amount
  {
    MulPos(d.quote, amount);
    FloorDiv(d.quote * amount, d.tokens + amount);
    FloorAtLeast(0, d.quote * amount, d.tokens + amount);
    ProductBound(c.Product(), d.quote, d.tokens, amount, c.tokens + total, GrossOut(d.quote, d.tokens, amount));
  }

  lemma ProductBound(product: int, quote: int, tokens: int, amount: int, u: int, gross: int)
    requires 0 < tokens && 0 < amount && tokens + amount <= u && 0 <= gross
    requires product <= quote * tokens && quote * amount < gross * (tokens + amount) + (tokens + amount)
    ensures product * amount <= ((gross + 1) * u - 1) * (u - amount)
  {
    var after := tokens + amount;
    assert product * amount <= (quote * amount) * tokens by {
      MulMono(product, quote * tokens, amount);
      assert (quote * tokens) * amount == (quote * amount) * tokens;
    }
    assert quote * amount <= (gross + 1) * u - 1 by {
      assert (gross + 1) * after == gross * after + after;
      MulMono(after, u, gross + 1);
    }
    MulPos(gross + 1, u);
    TimesTokens(product * amount, quote * amount, tokens, (gross + 1) * u - 1, u - amount);
  }

  lemma TimesTokens(worth: int, gain: int, tokens: int, top: int, left: int)
    requires worth <= gain * tokens && gain <= top && 0 <= tokens <= left && 0 <= top
    ensures worth <= top * left
  {
    MulMono(gain, top, tokens);
    MulMono(tokens, left, top);
  }

  /** The least gross output that pays one wei after the fee, as basis points kept: between
      one and two whole units. */
  function FeeRoom(feeBps: int): (room: nat) {
    KeptBps(feeBps) * GrossFromNet(1, feeBps)
  }

  lemma FeeRoomBounds(feeBps: int)
    requires feeBps < BPS_DENOM
    ensures BPS_DENOM <= FeeRoom(feeBps) < BPS_DENOM + KeptBps(feeBps)
    ensures 1 <= GrossFromNet(1, feeBps)
  {
    if 0 < feeBps {
      var den := BPS_DENOM - feeBps;
      FloorDiv(BPS_DENOM + den - 1, den);
      assert den * GrossFromNet(1, feeBps) == GrossFromNet(1, feeBps) * den;
    }
  }

  /** A floor of some wei is paid by that many times the gross output for one wei. */
  lemma GrossOfFloor(floor: nat, feeBps: int, gross: nat)
    requires feeBps < BPS_DENOM && floor * GrossFromNet(1, feeBps) <= gross
    ensures floor <= AfterFee(gross, feeBps)
  {
    FeeRoomBounds(feeBps);
    var kept, one := KeptBps(feeBps), GrossFromNet(1, feeBps);
    MulMono(floor * one, gross, kept);
    MulMono(BPS_DENOM, FeeRoom(feeBps), floor);
    assert (floor * one) * kept == FeeRoom(feeBps) * floor;
    FloorAtLeast(floor, gross * kept, BPS_DENOM);
  }

  /** The batch is small enough for the 0.01% floor, and the fee, to absorb all of its own price impact. */
  predicate Absorbed(tokens: int, total: int, feeBps: int, x: int, y: int) {
    var u := tokens + total;
    FeeRoom(feeBps) * ((u * (u - 1)) * y) <= 100_000_000 * (tokens * x)
  }

  /** At a fee of everything no floor is whole. */
  lemma WholeFloorNeedsProceeds(floor: int, x: int, quote: int, share: int, feeBps: int)
    requires 1 <= floor && 0 < x && floor * (100_000_000 * x) <= (KeptBps(feeBps) * quote) * share
    ensures feeBps < BPS_DENOM
  {
    MulPos(floor, 100_000_000 * x);
  }

  /** The floor of a sell is at least one wei and stays below what it is sure to be paid. */
  lemma SellPaysFloor(c: Reserves, d: Reserves, amount: int, floor: int, total: int, feeBps: int, x: int, y: int)
    requires c.Live() && 0 < amount && 1 <= floor && 0 < x && 0 < y && Reachable(c, d, amount, total)
    requires Absorbed(c.tokens, total, feeBps, x, y)
    requires floor * (100_000_000 * x) <= (KeptBps(feeBps) * c.quote) * (amount * y)
    ensures floor <= QuoteOutForTokens(d.quote, d.tokens, amount, feeBps, 0)
  {
    WholeFloorNeedsProceeds(floor, x, c.quote, amount * y, feeBps);
    var gross, u := GrossOut(d.quote, d.tokens, amount), c.tokens + total;
    GrossBound(c, d, amount, total);
    FeeRoomBounds(feeBps);
    LooserBound(c.Product() * amount, u, amount, gross);
    CompareFloor(floor, KeptBps(feeBps), GrossFromNet(1, feeBps), c.quote, c.tokens, amount, u * (u - 1), x, y, gross);
    GrossOfFloor(floor, feeBps, gross);
  }

  lemma LooserBound(worth: int, u: int, amount: int, gross: int)
    requires 0 < amount < u && 0 <= gross && worth <= ((gross + 1) * u - 1) * (u - amount)
    ensures worth < (u * (u - 1)) * (gross + 1) && 0 < u * (u - 1)
  {
    var top := (gross + 1) * u;
    MulPos(gross + 1, u);
    MulMono(u - amount, u - 1, top - 1);
    assert (top - 1) * (u - 1) == top * (u - 1) - (u - 1);
    assert top * (u - 1) == (u * (u - 1)) * (gross + 1);
    MulPos(u, u - 1);
  }

  lemma RoomTimesFloor(floor: int, kept: int, one: int, tokens: int, wy: int, x: int)
    requires 1 <= floor && (kept * one) * wy <= 100_000_000 * (tokens * x)
    ensures (floor * one) * (wy * kept) <= (floor * (100_000_000 * x)) * tokens
  {
    MulMono((kept * one) * wy, 100_000_000 * (tokens * x), floor);
    assert (floor * one) * (wy * kept) == ((kept * one) * wy) * floor;
    assert (100_000_000 * (tokens * x)) * floor == (floor * (100_000_000 * x)) * tokens;
  }

  lemma ShareTimesTokens(low: int, kept: int, quote: int, tokens: int, amount: int, y: int)
    requires low <= (kept * quote) * (amount * y) && 0 < tokens
    ensures low * tokens <= ((quote * tokens) * amount) * (kept * y)
  {
    var ky := kept * y;
    MulMono(low, (kept * quote) * (amount * y), tokens);
    assert (kept * quote) * (amount * y) == (quote * amount) * ky;
    assert ((quote * amount) * ky) * tokens == ((quote * tokens) * amount) * ky;
  }

  lemma CompareFloor(floor: int, kept: int, one: int, quote: int, tokens: int, amount: int, w: int, x: int, y: int,
                     gross: int)
    requires 1 <= floor && 0 < kept && 0 < tokens && 0 < y && 0 < w
    requires floor * (100_000_000 * x) <= (kept * quote) * (amount * y)
    requires (quote * tokens) * amount < w * (gross + 1)
    requires (kept * one) * (w * y) <= 100_000_000 * (tokens * x)
    ensures floor * one <= gross
  {
    RoomTimesFloor(floor, kept, one, tokens, w * y, x);
    ShareTimesTokens(floor * (100_000_000 * x), kept, quote, tokens, amount, y);
    LastCompare(floor * one, (floor * (100_000_000 * x)) * tokens, (quote * tokens) * amount, kept, w, y, gross);
  }

  lemma LastCompare(need: int, low: int, worth: int, kept: int, w: int, y: int, gross: int)
    requires 0 < kept && 0 < y && 0 < w
    requires need * ((w * y) * kept) <= low <= worth * (kept * y) && worth < w * (gross + 1)
    ensures need <= gross
  {
    var ky := kept * y;
    MulPos(kept, y);
    MulPos(w, ky);
    assert (w * y) * kept == w * ky;
    MulMono(worth + 1, w * (gross + 1), ky);
    assert (worth + 1) * ky == worth * ky + ky;
    assert (w * (gross + 1)) * ky == (gross + 1) * (w * ky);
    MulCancelStrict(need, gross + 1, w * ky);
  }

  // ---------------------------------------------------------------------
  // Whole exits
  // ---------------------------------------------------------------------

  /** The i-th sell pays its minimum output at the reserves d. */
  predicate PaysAt(plans: seq<PlannedSell>, i: nat, d: Reserves, feeBps: int)
    requires i < |plans|
  {
    MinOut(plans[i].quote) <= QuoteOutForTokens(d.quote, d.tokens, plans[i].amount, feeBps, 0)
  }

  /** Every sell pays at all reserves the exit can reach while outsiders sell so many tokens. */
  ghost predicate PaysThroughout(c: Reserves, plans: seq<PlannedSell>, feeBps: int, sold: nat) {
    && c.Live() && (forall i :: 0 <= i < |plans| ==> 0 < plans[i].amount)
    && forall i: nat, d: Reserves ::
         i < |plans| && Reachable(c, d, plans[i].amount, Sum(Amounts(plans)) + sold) ==> PaysAt(plans, i, d, feeBps)
  }

  /** Tokens of the plan that have not landed yet. */
  function Outstanding(plans: seq<PlannedSell>, done: set<nat>): int {
    if plans == [] then 0
    else
      var n := |plans| - 1;
      Outstanding(plans[..n], done) + if n in done then 0 else plans[n].amount
  }

  lemma {:induction false} LandOne(plans: seq<PlannedSell>, done: set<nat>, i: nat)
    requires i < |plans| && i !in done
    requires forall j :: 0 <= j < |plans| ==> 0 < plans[j].amount
    ensures Outstanding(plans, done + {i}) == Outstanding(plans, done) - plans[i].amount
    ensures plans[i].amount <= Outstanding(plans, done)
  {
    var n := |plans| - 1;
    if i < n {
      LandOne(plans[..n], done, i);
    } else {
      LandNone(plans[..n], done, i);
    }
  }

  lemma {:induction false} LandNone(plans: seq<PlannedSell>, done: set<nat>, i: nat)
    requires |plans| <= i
    requires forall j :: 0 <= j < |plans| ==> 0 < plans[j].amount
    ensures Outstanding(plans, done + {i}) == Outstanding(plans, done) >= 0
  {
    if plans != [] {
      LandNone(plans[..|plans| - 1], done, i);
    }
  }

  lemma {:induction false} NothingLanded(plans: seq<PlannedSell>)
    ensures Outstanding(plans, {}) == Sum(Amounts(plans))
  {
    if plans != [] {
      var n := |plans| - 1;
      NothingLanded(plans[..n]);
      assert Amounts(plans) == Amounts(plans[..n]) + [plans[n].amount];
      SumSnoc(Amounts(plans[..n]), plans[n].amount);
    }
  }

  /** Whatever part of the exit has landed, in whatever order and between whatever outside
      buys, every further sell pays its minimum output while outsiders sell no more than so many tokens. */
  lemma {:induction false} NeverRejectedFrom(c: Reserves, plans: seq<PlannedSell>, feeBps: int,
                                             d: Reserves, done: set<nat>, events: seq<ExitEvent>, sold: nat)
    requires PaysThroughout(c, plans, feeBps, sold)
    requires d.Live() && c.Product() <= d.Product()
    requires d.tokens + Outstanding(plans, done) + OutsideSold(events) <= c.tokens + Sum(Amounts(plans)) + sold
    requires OnceEach(events, |plans|, done)
    ensures EveryFloorPaid(d, plans, events, feeBps)
    decreases |events|
  {
    if events != [] {
      match events[0] {
        case SellWallet(i) =>
          LandOne(plans, done, i);
          assert Reachable(c, d, plans[i].amount, Sum(Amounts(plans)) + sold);
          assert PaysAt(plans, i, d, feeBps);
          SellKeepsProduct(d, plans[i].amount);
          NeverRejectedFrom(c, plans, feeBps, SellStep(d, plans[i].amount), done + {i}, events[1..], sold);
        case OutsideBuy(spend, buyerFee) =>
          BuyKeepsProduct(d, spend, buyerFee);
          NeverRejectedFrom(c, plans, feeBps, BuyStep(d, spend, buyerFee), done, events[1..], sold);
        case OutsideSell(tokens) =>
          SellKeepsProduct(d, tokens);
          NeverRejectedFrom(c, plans, feeBps, SellStep(d, tokens), done, events[1..], sold);
      }
    }
  }

  lemma PaysThroughoutIsSafe(c: Reserves, plans: seq<PlannedSell>, feeBps: int, events: seq<ExitEvent>)
    requires PaysThroughout(c, plans, feeBps, OutsideSold(events)) && OnceEach(events, |plans|, {})
    ensures EveryFloorPaid(c, plans, events, feeBps)
  {
    NothingLanded(plans);
    NeverRejectedFrom(c, plans, feeBps, c, {}, events, OutsideSold(events));
  }

  lemma AbsorbedPays(c: Reserves, plans: seq<PlannedSell>, feeBps: int, x: int, y: int, sold: nat)
    requires FloorsBelow(plans, c, feeBps, x, y) && WholeFloors(plans)
    requires Absorbed(c.tokens, Sum(Amounts(plans)) + sold, feeBps, x, y)
    ensures PaysThroughout(c, plans, feeBps, sold)
  {
    forall i: nat, d: Reserves | i < |plans| && Reachable(c, d, plans[i].amount, Sum(Amounts(plans)) + sold)
      ensures PaysAt(plans, i, d, feeBps)
    {
      SellPaysFloor(c, d, plans[i].amount, ApplySlippage(plans[i].quote, SELL_SLIPPAGE_BPS),
                    Sum(Amounts(plans)) + sold, feeBps, x, y);
    }
  }

  /** A concurrent exit whose impact is absorbed, together with that of what outsiders sell meanwhile, is
      never rejected by its own slippage floor, for a quote of any amount rescaled to the batch. */
  lemma NeverRejected(c: Reserves, plans: seq<PlannedSell>, quoted: int, feeBps: int, events: seq<ExitEvent>)
    requires PricedFrom(plans, c, quoted, feeBps) && WholeFloors(plans)
    requires Absorbed(c.tokens, Sum(Amounts(plans)) + OutsideSold(events), feeBps, c.tokens + quoted, 1)
    requires OnceEach(events, |plans|, {})
    ensures EveryFloorPaid(c, plans, events, feeBps)
  {
    PricedFloors(plans, c, quoted, feeBps);
    AbsorbedPays(c, plans, feeBps, c.tokens + quoted, 1, OutsideSold(events));
    PaysThroughoutIsSafe(c, plans, feeBps, events);
  }

  /** So is the exit whose quote, for any amount at all, is not rescaled. */
  lemma UnscaledNeverRejected(c: Reserves, plans: seq<PlannedSell>, quoted: int, feeBps: int, events: seq<ExitEvent>)
    requires PricedUnscaled(plans, c, quoted, feeBps) && WholeFloors(plans)
    requires Absorbed(c.tokens, Sum(Amounts(plans)) + OutsideSold(events), feeBps,
                      (c.tokens + quoted) * Sum(Amounts(plans)), quoted)
    requires OnceEach(events, |plans|, {})
    ensures EveryFloorPaid(c, plans, events, feeBps)
  {
    UnscaledFloors(plans, c, quoted, feeBps);
    AbsorbedPays(c, plans, feeBps, (c.tokens + quoted) * Sum(Amounts(plans)), quoted, OutsideSold(events));
    PaysThroughoutIsSafe(c, plans, feeBps, events);
  }

  /** An ordinary exit meets every condition: two wallets sell three thousandths of the reserve,
      between outsiders who buy, and who sell twice as many tokens. */
  lemma OrdinaryExitQualifies()
    ensures var c := Reserves(1_000_000_000, 1_000_000_000);
            var plans := [PlannedSell(0, 1_000_000, 997_008), PlannedSell(3, 2_000_000, 1_994_017)];
            var events := [OutsideSell(6_000_000), SellWallet(1), OutsideBuy(5, 100), SellWallet(0)];
            && PricedFrom(plans, c, 3_000_000, 0) && WholeFloors(plans)
            && Absorbed(c.tokens, Sum(Amounts(plans)) + OutsideSold(events), 0, c.tokens + 3_000_000, 1)
            && OnceEach(events, 2, {})
  {
    var plans := [PlannedSell(0, 1_000_000, 997_008), PlannedSell(3, 2_000_000, 1_994_017)];
    assert Amounts(plans) == [1_000_000, 2_000_000];
    assert Sum([1_000_000, 2_000_000]) == 1_000_000 + Sum([2_000_000]);
    var events := [OutsideSell(6_000_000), SellWallet(1), OutsideBuy(5, 100), SellWallet(0)];
    var rest := [SellWallet(1), OutsideBuy(5, 100), SellWallet(0)];
    assert events[1..] == rest && rest[1..] == [OutsideBuy(5, 100), SellWallet(0)];
    assert rest[1..][1..] == [SellWallet(0)] && [SellWallet(0)][1..] == [];
    assert OutsideSold(rest) == OutsideSold(rest[1..]) == OutsideSold([SellWallet(0)]) == OutsideSold([]);
    assert OnceEach([SellWallet(0)], 2, {} + {1});
    var c := Reserves(1_000_000_000, 1_000_000_000);
    assert SharedFor(c, 3_000_000, 3_000_000, 0) == 2_991_026;
    assert PricedFrom(plans, c, 3_000_000, 0);
  }
}
