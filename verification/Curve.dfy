/** The constant-product bonding curve: its local price functions and what any
    sequence of trades keeps. Amounts are raw units (wei or token base units). */
module Curve {
  import opened FloorMath

  const BPS_DENOM := 10_000

  /** The parts of BPS_DENOM that a fee leaves. */
  function KeptBps(feeBps: int): (kept: nat)
    ensures kept <= BPS_DENOM
  {
    if feeBps <= 0 then BPS_DENOM else if feeBps >= BPS_DENOM then 0 else BPS_DENOM - feeBps
  }

  /** What is left of an amount after a fee in basis points, rounded down. */
  function AfterFee(amount: int, feeBps: int): (net: int)
    ensures net == amount * KeptBps(feeBps) / BPS_DENOM
    ensures 0 <= amount ==> 0 <= net <= amount
  {
    if feeBps <= 0 then
      assert amount * BPS_DENOM / BPS_DENOM == amount;
      amount
    else if feeBps >= BPS_DENOM then
      0
    else
      amount * (BPS_DENOM - feeBps) / BPS_DENOM
  }

  /** Tokens received for spending quoteIn; a missing amount counts as zero. */
  function TokensOutForQuote(quoteReserve: int, tokenReserve: int, quoteIn: int, feeBps: int, creatorTaxBps: int): int {
    if quoteReserve <= 0 || tokenReserve <= 0 || quoteIn <= 0 then
      0
    else
      var net := AfterFee(quoteIn, feeBps + creatorTaxBps);
      tokenReserve * net / (quoteReserve + net)
  }

  /** The quote that leaves the curve for tokensIn, before the fee is skimmed. */
  function GrossOut(quoteReserve: int, tokenReserve: int, tokensIn: int): int
    requires 0 < tokenReserve + tokensIn
  {
    quoteReserve * tokensIn / (tokenReserve + tokensIn)
  }

  /** Quote received for selling tokensIn, net of the total fee. */
  function QuoteOutForTokens(quoteReserve: int, tokenReserve: int, tokensIn: int, feeBps: int,
                             creatorTaxBps: int): int {
    if quoteReserve <= 0 || tokenReserve <= 0 || tokensIn <= 0 then 0
    else AfterFee(GrossOut(quoteReserve, tokenReserve, tokensIn), feeBps + creatorTaxBps)
  }

  // ---------------------------------------------------------------------
  // The reserves as a state that trades move
  // ---------------------------------------------------------------------

  datatype Reserves = Reserves(quote: int, tokens: int) {
    predicate Live() {
      0 < quote && 0 < tokens
    }

    function Product(): int {
      quote * tokens
    }
  }

  /** The reserves after tokensIn are sold: the gross output leaves the quote side. */
  function SellStep(c: Reserves, tokensIn: int): Reserves
    requires c.Live()
  {
    if tokensIn <= 0 then c
    else Reserves(c.quote - GrossOut(c.quote, c.tokens, tokensIn), c.tokens + tokensIn)
  }

  /** The reserves after spend is paid in: only its after-fee part enters. */
  function BuyStep(c: Reserves, spend: int, feeBps: int): Reserves
    requires c.Live()
  {
    if spend <= 0 then c
    else Reserves(c.quote + AfterFee(spend, feeBps), c.tokens - TokensOutForQuote(c.quote, c.tokens, spend, feeBps, 0))
  }

  /** What a fee in basis points leaves of an amount, rounded down: all without a fee, nothing at a whole one. */
  predicate Leaves(amount: int, bps: int, net: int) {
    if bps <= 0 then net == amount
    else if 10_000 <= bps then net == 0
    else net * 10_000 <= amount * (10_000 - bps) < (net + 1) * 10_000
  }

  lemma OneNetIsLeft(amount: int, bps: int, net: int)
    ensures Leaves(amount, bps, net) <==> net == AfterFee(amount, bps)
  {
    FloorDiv(amount * KeptBps(bps), BPS_DENOM);
    if Leaves(amount, bps, net) && 0 < bps < 10_000 {
      FloorAtLeast(net, amount * KeptBps(bps), BPS_DENOM);
      FloorBelow(net + 1, amount * KeptBps(bps), BPS_DENOM);
    }
  }

  /** A buyer gets the most tokens that do not lower the reserves' product, once the fee and
      the creator's tax together are off the payment. */
  lemma BuyerGetsMost(c: Reserves, quoteIn: int, feeBps: int, creatorTaxBps: int, net: int, out: int)
    requires c.Live() && 0 < quoteIn && Leaves(quoteIn, feeBps + creatorTaxBps, net)
    ensures out <= TokensOutForQuote(c.quote, c.tokens, quoteIn, feeBps, creatorTaxBps)
            <==> c.Product() <= (c.quote + net) * (c.tokens - out)
  {
    OneNetIsLeft(quoteIn, feeBps + creatorTaxBps, net);
    var d := c.quote + net;
    assert d * (c.tokens - out) == c.Product() + c.tokens * net - out * d;
    if out * d <= c.tokens * net {
      FloorAtLeast(out, c.tokens * net, d);
    } else {
      FloorBelow(out, c.tokens * net, d);
    }
  }

  /** A seller gets, of the most quote that does not lower the product, what the fee and tax together leave. */
  lemma SellerGetsMost(c: Reserves, tokensIn: int, feeBps: int, creatorTaxBps: int, gross: int, net: int)
    requires c.Live() && 0 < tokensIn && Leaves(gross, feeBps + creatorTaxBps, net)
    requires c.Product() <= (c.quote - gross) * (c.tokens + tokensIn)
    requires (c.quote - (gross + 1)) * (c.tokens + tokensIn) < c.Product()
    ensures QuoteOutForTokens(c.quote, c.tokens, tokensIn, feeBps, creatorTaxBps) == net
  {
    var d := c.tokens + tokensIn;
    assert (c.quote - gross) * d == c.Product() + c.quote * tokensIn - gross * d;
    assert (c.quote - (gross + 1)) * d == c.Product() + c.quote * tokensIn - (gross + 1) * d;
    FloorAtLeast(gross, c.quote * tokensIn, d);
    FloorBelow(gross + 1, c.quote * tokensIn, d);
    OneNetIsLeft(gross, feeBps + creatorTaxBps, net);
  }

  /** A missing amount, or a curve without reserves, trades nothing. */
  lemma NothingTraded(quote: int, tokens: int, amount: int, feeBps: int, creatorTaxBps: int)
    requires quote <= 0 || tokens <= 0 || amount <= 0
    ensures TokensOutForQuote(quote, tokens, amount, feeBps, creatorTaxBps) == 0
    ensures QuoteOutForTokens(quote, tokens, amount, feeBps, creatorTaxBps) == 0
  {
  }

  /** A buy moves exactly its after-fee payment in and the tokens it gets out. */
  lemma BuyMovesReserves(c: Reserves, spend: int, feeBps: int)
    requires c.Live() && 0 < spend
    ensures var d := BuyStep(c, spend, feeBps);
            && Leaves(spend, feeBps, d.quote - c.quote)
            && c.tokens - d.tokens == TokensOutForQuote(c.quote, c.tokens, spend, feeBps, 0)
  {
    OneNetIsLeft(spend, feeBps, AfterFee(spend, feeBps));
  }

  /** A sell keeps the curve live and its product rises by less than the new token reserve. */
  lemma SellKeepsProduct(c: Reserves, tokensIn: int)
    requires c.Live()
    ensures var d := SellStep(c, tokensIn);
            && d.Live()
            && c.Product() <= d.Product()
            && d.quote <= c.quote
            && (0 < tokensIn ==> d.Product() < c.Product() + d.tokens)
  {
    if 0 < tokensIn {
      var d := SellStep(c, tokensIn);
      var gross := GrossOut(c.quote, c.tokens, tokensIn);
      FloorDiv(c.quote * tokensIn, d.tokens);
      assert d.Product() == c.Product() + (c.quote * tokensIn - gross * d.tokens);
      MulPos(c.quote, c.tokens);
      MulPos(c.quote, tokensIn);
      FloorAtLeast(0, c.quote * tokensIn, d.tokens);
      MulCancelStrict(0, d.quote, d.tokens);
    }
  }

  /** A buy keeps the curve live and never lowers its product. */
  lemma BuyKeepsProduct(c: Reserves, spend: int, feeBps: int)
    requires c.Live()
    ensures var d := BuyStep(c, spend, feeBps);
            && d.Live()
            && c.Product() <= d.Product()
            && d.tokens <= c.tokens
  {
    if 0 < spend {
      var d := BuyStep(c, spend, feeBps);
      var net := AfterFee(spend, feeBps);
      var out := c.tokens * net / d.quote;
      FloorDiv(c.tokens * net, d.quote);
      MulMono(0, net, c.tokens);
      FloorAtLeast(0, c.tokens * net, d.quote);
      assert d.Product() == c.Product() + (c.tokens * net - out * d.quote);
      MulPos(c.quote, c.tokens);
      MulCancelStrict(0, d.tokens, d.quote);
    }
  }

  // ---------------------------------------------------------------------
  // Whole runs: no free money on the curve
  // ---------------------------------------------------------------------

  /** One trade, each with the total fee its trader is charged. */
  datatype Trade = Buy(spend: int, feeBps: int) | Sell(tokensIn: int, feeBps: int)

  function Step(c: Reserves, t: Trade): (d: Reserves)
    requires c.Live()
    ensures d.Live()
  {
    match t
    case Buy(spend, feeBps) => BuyKeepsProduct(c, spend, feeBps); BuyStep(c, spend, feeBps)
    case Sell(tokensIn, _) => SellKeepsProduct(c, tokensIn); SellStep(c, tokensIn)
  }

  /** The reserves after a whole run of trades. */
  function Run(c: Reserves, trades: seq<Trade>): (d: Reserves)
    requires c.Live()
    ensures d.Live()
    decreases |trades|
  {
    if trades == [] then c else Run(Step(c, trades[0]), trades[1..])
  }

  /** Quote paid by the traders of a run, fees included. */
  function Paid(trades: seq<Trade>): int {
    if trades == [] then 0
    else (if trades[0].Buy? && 0 < trades[0].spend then trades[0].spend else 0) + Paid(trades[1..])
  }

  /** Quote received by the traders of a run, fees already taken off. */
  function Received(c: Reserves, trades: seq<Trade>): int
    requires c.Live()
    decreases |trades|
  {
    if trades == [] then 0
    else
      (if trades[0].Sell? then QuoteOutForTokens(c.quote, c.tokens, trades[0].tokensIn, trades[0].feeBps, 0) else 0)
      + Received(Step(c, trades[0]), trades[1..])
  }

  /** Over any run both reserves stay positive and their product never falls. */
  lemma {:induction false} RunKeepsProduct(c: Reserves, trades: seq<Trade>)
    requires c.Live()
    ensures Run(c, trades).Live() && c.Product() <= Run(c, trades).Product()
    decreases |trades|
  {
    if trades != [] {
      match trades[0] {
        case Buy(spend, feeBps) => BuyKeepsProduct(c, spend, feeBps);
        case Sell(tokensIn, _) => SellKeepsProduct(c, tokensIn);
      }
      RunKeepsProduct(Step(c, trades[0]), trades[1..]);
    }
  }

  /** The quote that entered the curve bounds what its traders are down. */
  lemma {:induction false} RunConservesQuote(c: Reserves, trades: seq<Trade>)
    requires c.Live()
    ensures Run(c, trades).quote - c.quote <= Paid(trades) - Received(c, trades)
    decreases |trades|
  {
    if trades != [] {
      var t, d := trades[0], Step(c, trades[0]);
      RunConservesQuote(d, trades[1..]);
      match t {
        case Buy(spend, feeBps) =>
          assert d.quote - c.quote <= if 0 < spend then spend else 0;
        case Sell(tokensIn, feeBps) =>
          if 0 < tokensIn {
            MulPos(c.quote, tokensIn);
            FloorAtLeast(0, c.quote * tokensIn, c.tokens + tokensIn);
          }
      }
    }
  }

  /** Traders who end a run holding at least the tokens they began with have
      received at most the quote they paid. */
  lemma NoFreeMoney(c: Reserves, trades: seq<Trade>)
    requires c.Live()
    requires Run(c, trades).tokens <= c.tokens
    ensures Received(c, trades) <= Paid(trades)
  {
    var d := Run(c, trades);
    RunKeepsProduct(c, trades);
    RunConservesQuote(c, trades);
    MulMono(d.tokens, c.tokens, d.quote);
    assert c.quote * c.tokens <= d.quote * c.tokens;
    MulCancel(c.quote, d.quote, c.tokens);
  }

  // ---------------------------------------------------------------------
  // Splitting one payment into many
  // ---------------------------------------------------------------------

  /** The after-fee parts of a split payment add up to at most, and fall short by
      less than one unit for each extra part of, the after-fee whole. */
  lemma {:induction false} SplitFee(parts: seq<int>, feeBps: int)
    ensures |parts| == 0 ==> SumAfterFee(parts, feeBps) == AfterFee(Sum(parts), feeBps)
    ensures |parts| > 0 ==>
              SumAfterFee(parts, feeBps) <= AfterFee(Sum(parts), feeBps) <= SumAfterFee(parts, feeBps) + |parts| - 1
  {
    if |parts| == 1 {
      assert parts == [parts[0]];
      assert parts[1..] == [];
    } else if |parts| > 1 {
      SplitFee(parts[1..], feeBps);
      FeeOfTwo(parts[0], Sum(parts[1..]), feeBps);
    }
  }

  /** The sum of the parts, each after its own fee. */
  function SumAfterFee(parts: seq<int>, feeBps: int): int {
    if parts == [] then 0 else AfterFee(parts[0], feeBps) + SumAfterFee(parts[1..], feeBps)
  }

  lemma FeeOfTwo(a: int, b: int, feeBps: int)
    ensures var parts := AfterFee(a, feeBps) + AfterFee(b, feeBps); parts <= AfterFee(a + b, feeBps) <= parts + 1
  {
    var kept := KeptBps(feeBps);
    assert (a + b) * kept == a * kept + b * kept;
    FloorDiv(a * kept, BPS_DENOM);
    FloorDiv(b * kept, BPS_DENOM);
    FloorDiv((a + b) * kept, BPS_DENOM);
  }

  /** A larger amount keeps more, but by no more than the difference. */
  lemma FeeMono(a: int, b: int, feeBps: int)
    requires a <= b
    ensures AfterFee(a, feeBps) <= AfterFee(b, feeBps) <= AfterFee(a, feeBps) + (b - a)
  {
    var kept := KeptBps(feeBps);
    MulMono(a, b, kept);
    MulMono(kept, BPS_DENOM, b - a);
    assert b * kept == a * kept + (b - a) * kept;
    FloorMono(a * kept, b * kept, BPS_DENOM);
    FloorMono(b * kept, a * kept + (b - a) * BPS_DENOM, BPS_DENOM);
    assert (a * kept + (b - a) * BPS_DENOM) / BPS_DENOM == a * kept / BPS_DENOM + (b - a);
  }

  /** A higher fee keeps less of a non-negative amount. */
  lemma FeeAntitone(amount: int, feeBps: int, higherBps: int)
    requires 0 <= amount && feeBps <= higherBps
    ensures AfterFee(amount, higherBps) <= AfterFee(amount, feeBps)
  {
    MulMono(KeptBps(higherBps), KeptBps(feeBps), amount);
    FloorMono(amount * KeptBps(higherBps), amount * KeptBps(feeBps), BPS_DENOM);
  }
}
