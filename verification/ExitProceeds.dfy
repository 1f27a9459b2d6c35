/** What a full exit brings in, against the one-hop quote it was decided on. */
module ExitProceeds {
  import opened FloorMath
  import opened Curve
  import opened Decide
  import opened Optional
  import opened ExitPlan

  /** The reserves after the amounts are sold one after another. */
  function SellAll(c: Reserves, amounts: seq<int>): (d: Reserves)
    requires c.Live()
    ensures d.Live()
    decreases |amounts|
  {
    if amounts == [] then c else SellKeepsProduct(c, amounts[0]); SellAll(SellStep(c, amounts[0]), amounts[1..])
  }

  /** The net proceeds of selling the amounts one after another. */
  function Proceeds(c: Reserves, amounts: seq<int>, feeBps: int): int
    requires c.Live()
    decreases |amounts|
  {
    if amounts == [] then 0
    else
      SellKeepsProduct(c, amounts[0]);
      QuoteOutForTokens(c.quote, c.tokens, amounts[0], feeBps, 0)
      + Proceeds(SellStep(c, amounts[0]), amounts[1..], feeBps)
  }

  /** The gross output of each sell of a sequence. */
  ghost function GrossParts(c: Reserves, amounts: seq<int>): (g: seq<int>)
    requires c.Live()
    requires forall i :: 0 <= i < |amounts| ==> 0 < amounts[i]
    ensures |g| == |amounts|
    decreases |amounts|
  {
    if amounts == [] then []
    else
      SellKeepsProduct(c, amounts[0]);
      [GrossOut(c.quote, c.tokens, amounts[0])] + GrossParts(SellStep(c, amounts[0]), amounts[1..])
  }

  lemma {:induction false} ProceedsFromParts(c: Reserves, amounts: seq<int>, feeBps: int)
    requires c.Live()
    requires forall i :: 0 <= i < |amounts| ==> 0 < amounts[i]
    ensures Proceeds(c, amounts, feeBps) == SumAfterFee(GrossParts(c, amounts), feeBps)
    ensures Sum(GrossParts(c, amounts)) == c.quote - SellAll(c, amounts).quote
    decreases |amounts|
  {
    if amounts != [] {
      SellKeepsProduct(c, amounts[0]);
      ProceedsFromParts(SellStep(c, amounts[0]), amounts[1..], feeBps);
    }
  }

  /** Selling in parts never lowers the product, and each part lifts it by less than the final token reserve. */
  lemma {:induction false} SellAllProduct(c: Reserves, amounts: seq<int>)
    requires c.Live()
    requires forall i :: 0 <= i < |amounts| ==> 0 < amounts[i]
    ensures var d := SellAll(c, amounts);
            && d.tokens == c.tokens + Sum(amounts)
            && c.tokens <= d.tokens
            && c.Product() <= d.Product() <= c.Product() + |amounts| * (d.tokens - 1)
    decreases |amounts|
  {
    if amounts != [] {
      var d := SellStep(c, amounts[0]);
      SellKeepsProduct(c, amounts[0]);
      SellAllProduct(d, amounts[1..]);
      var e, n := SellAll(d, amounts[1..]), |amounts| - 1;
      assert (n + 1) * (e.tokens - 1) == n * (e.tokens - 1) + (e.tokens - 1);
    }
  }

  /** Sold in n parts, a position leaves at most n - 1 more wei in the curve than sold at once. */
  lemma SplitSellBracket(c: Reserves, amounts: seq<int>)
    requires c.Live() && amounts != []
    requires forall i :: 0 <= i < |amounts| ==> 0 < amounts[i]
    ensures var once, split := SellStep(c, Sum(amounts)), SellAll(c, amounts);
            once.tokens == split.tokens && once.quote <= split.quote <= once.quote + |amounts| - 1
  {
    SumNonNegative(amounts);
    SellKeepsProduct(c, Sum(amounts));
    SellAllProduct(c, amounts);
    assert Sum(amounts) >= amounts[0] > 0;
    CloseProducts(SellStep(c, Sum(amounts)).quote, SellAll(c, amounts).quote, SellAll(c, amounts).tokens, c.Product(),
                  |amounts|);
  }

  lemma CloseProducts(once: int, split: int, tokens: int, product: int, n: nat)
    requires 0 < tokens && 0 < n
    requires product <= once * tokens < product + tokens
    requires product <= split * tokens <= product + n * (tokens - 1)
    ensures once <= split <= once + n - 1
  {
    assert (split + 1) * tokens == split * tokens + tokens;
    MulCancelStrict(once, split + 1, tokens);
    assert n * (tokens - 1) == n * tokens - n;
    assert (once + n) * tokens == once * tokens + n * tokens;
    MulCancelStrict(split, once + n, tokens);
  }

  // ---------------------------------------------------------------------
  // How far the quote is above the proceeds
  // ---------------------------------------------------------------------

  /** The most that n sells can fall short of the one-hop quote of their sum. */
  function Shortfall(n: nat): (s: int) {
    (2 * n - 1) * 9_999 / 10_000
  }

  /** Rounding of the parts and of what they leave behind, after a fee. */
  lemma {:induction false} FeeResidues(parts: seq<int>, feeBps: int)
    ensures var paid := BPS_DENOM * SumAfterFee(parts, feeBps);
            paid <= Sum(parts) * KeptBps(feeBps) <= paid + 9_999 * |parts|
    ensures KeptBps(feeBps) == BPS_DENOM ==> SumAfterFee(parts, feeBps) == Sum(parts)
    decreases |parts|
  {
    if parts != [] {
      FeeResidues(parts[1..], feeBps);
      OneResidue(parts[0], Sum(parts[1..]), KeptBps(feeBps));
    }
  }

  lemma OneResidue(part: int, rest: int, kept: int)
    ensures (part + rest) * kept == part * kept + rest * kept
    ensures BPS_DENOM * (part * kept / BPS_DENOM) <= part * kept <= BPS_DENOM * (part * kept / BPS_DENOM) + 9_999
    ensures kept == BPS_DENOM ==> part * kept / BPS_DENOM == part
  {
    FloorDiv(part * kept, BPS_DENOM);
  }

  /** With e wei left behind by the split, the fee's rounding adds less than one wei for each part and each of them. */
  lemma FeeGap(parts: seq<int>, left: nat, feeBps: int)
    requires left < |parts|
    ensures AfterFee(Sum(parts) + left, feeBps) <= SumAfterFee(parts, feeBps) + Shortfall(|parts|)
  {
    FeeResidues(parts, feeBps);
    if KeptBps(feeBps) == BPS_DENOM {
      FloorAtLeast(|parts| - 1, (2 * |parts| - 1) * 9_999, 10_000);
    } else {
      ResidueGap(Sum(parts), left, KeptBps(feeBps), SumAfterFee(parts, feeBps), |parts|);
    }
  }

  lemma ResidueGap(sum: int, left: nat, kept: nat, paid: int, n: nat)
    requires kept <= 9_999 && left < n && sum * kept <= BPS_DENOM * paid + 9_999 * n
    ensures (sum + left) * kept / BPS_DENOM <= paid + Shortfall(n)
  {
    var whole := (sum + left) * kept;
    assert whole == sum * kept + left * kept;
    MulMono(kept, 9_999, left);
    FloorDiv(whole, BPS_DENOM);
    FloorAtLeast(whole / BPS_DENOM - paid, (2 * n - 1) * 9_999, 10_000);
  }

  /** The net proceeds of n sells, in any order, are at most the one-hop quote of the
      whole, and short of it by at most Shortfall(n). */
  lemma QuoteBracketsProceeds(c: Reserves, amounts: seq<int>, feeBps: int)
    requires c.Live() && amounts != []
    requires forall i :: 0 <= i < |amounts| ==> 0 < amounts[i]
    ensures var quote := QuoteOutForTokens(c.quote, c.tokens, Sum(amounts), feeBps, 0);
            quote - Shortfall(|amounts|) <= Proceeds(c, amounts, feeBps) <= quote
  {
    SumNonNegative(amounts);
    assert Sum(amounts) >= amounts[0] > 0;
    var parts, gross := GrossParts(c, amounts), GrossOut(c.quote, c.tokens, Sum(amounts));
    SplitSellBracket(c, amounts);
    ProceedsFromParts(c, amounts, feeBps);
    FeeGap(parts, gross - Sum(parts), feeBps);
    SplitFee(parts, feeBps);
    FeeMono(Sum(parts), gross, feeBps);
  }

  /** Up to 5000 wallets that is two wei for each wallet but one; beyond, the fee cannot round every part down. */
  lemma ShortfallInWei(n: nat)
    requires 0 < n
    ensures n - 1 <= Shortfall(n) <= 2 * (n - 1)
    ensures Shortfall(n) == 2 * (n - 1) <==> n <= 5000
  {
  }

  // ---------------------------------------------------------------------
  // The shortfall is reached
  // ---------------------------------------------------------------------

  /** A steep curve: from `quote` wei, n sells in a row that pay one wei each, gross. The
      tokens in the curve before the first, and what the sells bring. */
  function SteepTokens(quote: nat, n: nat): nat
    requires n + 1 <= quote
  {
    if n == 0 then 1 else SteepTokens(quote - 1, n - 1) * (2 * quote - 3)
  }

  function Scaled(amounts: seq<int>, k: int): (s: seq<int>)
    ensures |s| == |amounts|
  {
    seq(|amounts|, i requires 0 <= i < |amounts| => k * amounts[i])
  }

  function SteepAmounts(quote: nat, n: nat): (amounts: seq<int>)
    requires n + 1 <= quote
    ensures |amounts| == n
  {
    if n == 0 then [] else [4 * SteepTokens(quote - 1, n - 1)] + Scaled(SteepAmounts(quote - 1, n - 1), 2 * quote + 1)
  }

  lemma {:induction false} ScaledSum(amounts: seq<int>, k: int)
    ensures Sum(Scaled(amounts, k)) == k * Sum(amounts)
  {
    if amounts != [] {
      ScaledSum(amounts[1..], k);
      assert Scaled(amounts, k)[1..] == Scaled(amounts[1..], k);
      assert k * Sum(amounts) == k * amounts[0] + k * Sum(amounts[1..]);
    }
  }

  lemma ScaledPositive(amounts: seq<int>, k: int)
    requires 0 < k && forall i :: 0 <= i < |amounts| ==> 0 < amounts[i]
    ensures forall i :: 0 <= i < |amounts| ==> 0 < Scaled(amounts, k)[i]
  {
    forall i | 0 <= i < |amounts|
      ensures 0 < Scaled(amounts, k)[i]
    {
      MulPos(k, amounts[i]);
    }
  }

  lemma {:induction false} SteepPositive(quote: nat, n: nat)
    requires n + 1 <= quote
    ensures 0 < SteepTokens(quote, n) && forall i :: 0 <= i < n ==> 0 < SteepAmounts(quote, n)[i]
  {
    if n > 0 {
      SteepPositive(quote - 1, n - 1);
      MulPos(SteepTokens(quote - 1, n - 1), 2 * quote - 3);
      ScaledPositive(SteepAmounts(quote - 1, n - 1), 2 * quote + 1);
    }
  }

  /** Scaling tokens and amounts alike changes no gross output. */
  lemma {:induction false} ScaledGross(c: Reserves, amounts: seq<int>, k: int)
    requires c.Live() && 0 < k && forall i :: 0 <= i < |amounts| ==> 0 < amounts[i]
    requires Reserves(c.quote, k * c.tokens).Live()
    ensures forall i :: 0 <= i < |amounts| ==> 0 < Scaled(amounts, k)[i]
    ensures GrossParts(Reserves(c.quote, k * c.tokens), Scaled(amounts, k)) == GrossParts(c, amounts)
    decreases |amounts|
  {
    ScaledPositive(amounts, k);
    if amounts != [] {
      var wide := Reserves(c.quote, k * c.tokens);
      ScaledQuotient(c.quote, c.tokens, amounts[0], k);
      SellKeepsProduct(c, amounts[0]);
      SellKeepsProduct(wide, k * amounts[0]);
      var d := SellStep(c, amounts[0]);
      assert SellStep(wide, k * amounts[0]) == Reserves(d.quote, k * d.tokens);
      ScaledGross(d, amounts[1..], k);
      assert Scaled(amounts, k)[1..] == Scaled(amounts[1..], k);
    }
  }

  lemma ScaledQuotient(quote: int, tokens: int, amount: int, k: int)
    requires 0 < quote && 0 < tokens && 0 < amount && 0 < k && 0 < k * tokens + k * amount
    ensures GrossOut(quote, k * tokens, k * amount) == GrossOut(quote, tokens, amount)
  {
    var g := GrossOut(quote, tokens, amount);
    FloorDiv(quote * amount, tokens + amount);
    assert (quote * (k * amount)) == (quote * amount) * k;
    assert k * tokens + k * amount == (tokens + amount) * k;
    MulMono(g * (tokens + amount), quote * amount, k);
    assert g * ((tokens + amount) * k) == (g * (tokens + amount)) * k;
    FloorAtLeast(g, (quote * amount) * k, (tokens + amount) * k);
    MulMono(quote * amount + 1, (g + 1) * (tokens + amount), k);
    assert (g + 1) * ((tokens + amount) * k) == ((g + 1) * (tokens + amount)) * k;
    assert (quote * amount + 1) * k == (quote * amount) * k + k;
    FloorBelow(g + 1, (quote * amount) * k, (tokens + amount) * k);
  }

  /** Every sell down the steep curve pays one wei, gross. */
  lemma {:induction false} SteepPaysOne(quote: nat, n: nat)
    requires n + 1 <= quote
    ensures Reserves(quote, SteepTokens(quote, n)).Live()
    ensures forall i :: 0 <= i < n ==> 0 < SteepAmounts(quote, n)[i]
    ensures GrossParts(Reserves(quote, SteepTokens(quote, n)), SteepAmounts(quote, n)) == seq(n, _ => 1)
  {
    SteepPositive(quote, n);
    if n > 0 {
      var t, k := SteepTokens(quote - 1, n - 1), 2 * quote + 1;
      var c, amounts := Reserves(quote, t * (2 * quote - 3)), SteepAmounts(quote, n);
      SteepPaysOne(quote - 1, n - 1);
      SteepStep(quote, t);
      SellKeepsProduct(c, 4 * t);
      assert SellStep(c, 4 * t) == Reserves(quote - 1, k * t);
      MulPos(k, t);
      ScaledGross(Reserves(quote - 1, t), SteepAmounts(quote - 1, n - 1), k);
      assert amounts[1..] == Scaled(SteepAmounts(quote - 1, n - 1), k);
      assert seq(n, _ => 1) == [1] + seq(n - 1, _ => 1);
    }
  }

  lemma SteepStep(quote: nat, t: nat)
    requires 2 <= quote && 0 < t
    ensures t * (2 * quote - 3) + 4 * t == (2 * quote + 1) * t
    ensures 0 < t * (2 * quote - 3) + 4 * t && GrossOut(quote, t * (2 * quote - 3), 4 * t) == 1
  {
    var d := (2 * quote + 1) * t;
    MulPos(2 * quote + 1, t);
    assert t * (2 * quote - 3) + 4 * t == d;
    assert quote * (4 * t) == (4 * quote) * t;
    MulMono(2 * quote + 1, 4 * quote, t);
    FloorAtLeast(1, quote * (4 * t), d);
    assert 2 * d == (4 * quote + 2) * t;
    MulMono(4 * quote + 1, 4 * quote + 2, t);
    assert (4 * quote + 1) * t == (4 * quote) * t + t;
    FloorBelow(2, quote * (4 * t), d);
  }

  /** How far the steep curve's tokens grow over the n sells. */
  lemma {:induction false} SteepGrowth(quote: nat, n: nat)
    requires n + 1 <= quote
    ensures var start := SteepTokens(quote, n);
            (start + Sum(SteepAmounts(quote, n))) * ((2 * quote + 1 - 2 * n) * (2 * quote - 1 - 2 * n))
            == start * ((2 * quote + 1) * (2 * quote - 1))
  {
    if n > 0 {
      var t, k := SteepTokens(quote - 1, n - 1), 2 * quote + 1;
      var rest := SteepAmounts(quote - 1, n - 1);
      SteepGrowth(quote - 1, n - 1);
      ScaledSum(rest, k);
      assert SteepAmounts(quote, n)[1..] == Scaled(rest, k);
      var y := (2 * quote + 1 - 2 * n) * (2 * quote - 1 - 2 * n);
      assert (2 * (quote - 1) + 1 - 2 * (n - 1)) * (2 * (quote - 1) - 1 - 2 * (n - 1)) == y;
      GrowthStep(t, Sum(rest), k, y, 2 * quote - 1, 2 * quote - 3);
    }
  }

  lemma GrowthStep(t: int, rest: int, k: int, y: int, a: int, b: int)
    requires (t + rest) * y == t * (a * b) && k == b + 4
    ensures (t * b + (4 * t + k * rest)) * y == (t * b) * (k * a)
  {
    assert t * b + (4 * t + k * rest) == k * (t + rest) by {
      assert t * k == t * b + 4 * t;
      assert k * (t + rest) == k * t + k * rest;
    }
    assert (k * (t + rest)) * y == k * ((t + rest) * y);
    assert k * (t * (a * b)) == (t * b) * (k * a);
  }

  /** Sold at once from n * n wei, the n sells would have paid 2n - 1 wei, gross. */
  lemma SteepQuote(n: nat)
    requires 2 <= n
    ensures var t, amounts := SteepTokens(n * n, n), SteepAmounts(n * n, n);
            && n + 1 <= n * n && 0 < t && 0 < Sum(amounts)
            && 2 * n - 1 <= GrossOut(n * n, t, Sum(amounts))
  {
    var quote := n * n;
    MulMono(2, n, n);
    var t, sum := SteepTokens(quote, n), Sum(SteepAmounts(quote, n));
    SteepPositive(quote, n);
    SumNonNegative(SteepAmounts(quote, n));
    assert 0 < SteepAmounts(quote, n)[0];
    SteepGrowth(quote, n);
    var y, top := (2 * quote + 1 - 2 * n) * (2 * quote - 1 - 2 * n), (2 * quote + 1) * (2 * quote - 1);
    SteepRoom(n, quote, y, top);
    MulPos(2 * quote + 1 - 2 * n, 2 * quote - 1 - 2 * n);
    OnceBeatsParts(quote, t, sum, 2 * n - 1, y, top);
    FloorAtLeast(2 * n - 1, quote * sum, t + sum);
  }

  lemma SteepRoom(n: nat, quote: nat, y: int, top: int)
    requires 2 <= n && quote == n * n
    requires y == (2 * quote + 1 - 2 * n) * (2 * quote - 1 - 2 * n) && top == (2 * quote + 1) * (2 * quote - 1)
    ensures quote * y <= (quote - (2 * n - 1)) * top
  {
    assert top == 4 * (quote * quote) - 1;
    assert y == top - 8 * (quote * n) + 4 * quote;
    assert quote * y == quote * top - 8 * (quote * (quote * n)) + 4 * (quote * quote);
    assert (quote - (2 * n - 1)) * top == quote * top - (2 * n - 1) * top;
    assert (2 * n - 1) * top == 8 * (quote * (quote * n)) - 4 * (quote * quote) - (2 * n - 1) by {
      assert (2 * n - 1) * top == (2 * n - 1) * (4 * (quote * quote)) - (2 * n - 1);
      assert n * (quote * quote) == quote * (quote * n);
    }
  }

  lemma OnceBeatsParts(quote: int, t: int, sum: int, gross: int, y: int, top: int)
    requires 0 < t && 0 < y && (t + sum) * y == t * top && quote * y <= (quote - gross) * top
    ensures gross * (t + sum) <= quote * sum
  {
    MulMono(quote * y, (quote - gross) * top, t);
    assert (quote * t) * y == (quote * y) * t;
    assert ((quote - gross) * (t + sum)) * y == (quote - gross) * ((t + sum) * y);
    assert (quote - gross) * (t * top) == ((quote - gross) * top) * t;
    MulCancel(quote * t, (quote - gross) * (t + sum), y);
    assert (quote - gross) * (t + sum) == quote * (t + sum) - gross * (t + sum);
    assert quote * (t + sum) == quote * t + quote * sum;
  }

  // ---------------------------------------------------------------------
  // When a decided exit covers its cost
  // ---------------------------------------------------------------------

  /** A quote that clears at a margin over total cost brings in more than that cost. */
  predicate Covers(c: Reserves, order: seq<int>, quote: int, margin: int, feeBps: int, totalCost: int)
    requires c.Live()
  {
    RetailBuyResponse(quote - margin, totalCost, true) == ClearAll ==> totalCost < Proceeds(c, order, feeBps)
  }

  predicate Sells(c: Reserves, order: seq<int>, n: nat) {
    c.Live() && |order| == n && forall i :: 0 <= i < n ==> 0 < order[i]
  }

  /** A full exit of n wallets, decided on its own one-hop quote at the margin, covers its
      cost at any reserves, holdings, order and fee. */
  ghost predicate MarginCovers(n: nat, margin: int) {
    forall c: Reserves, order: seq<int>, feeBps: int, totalCost: int ::
      Sells(c, order, n) ==>
        Covers(c, order, QuoteOutForTokens(c.quote, c.tokens, Sum(order), feeBps, 0), margin, feeBps, totalCost)
  }

  /** The steep exit falls the whole shortfall short of its quote. */
  lemma SteepShortfall(n: nat)
    requires 2 <= n
    ensures n + 1 <= n * n && Sells(Reserves(n * n, SteepTokens(n * n, n)), SteepAmounts(n * n, n), n)
    ensures var c, order := Reserves(n * n, SteepTokens(n * n, n)), SteepAmounts(n * n, n);
            Proceeds(c, order, 1) + Shortfall(n) == QuoteOutForTokens(c.quote, c.tokens, Sum(order), 1, 0)
  {
    SteepQuote(n);
    SteepPaysOne(n * n, n);
    var c, order := Reserves(n * n, SteepTokens(n * n, n)), SteepAmounts(n * n, n);
    ProceedsFromParts(c, order, 1);
    OnesPayNothing(n);
    QuoteBracketsProceeds(c, order, 1);
    OneBasisPoint(2 * n - 1, GrossOut(c.quote, c.tokens, Sum(order)));
  }

  lemma OneBasisPoint(least: nat, gross: int)
    requires least <= gross
    ensures least * 9_999 / 10_000 <= AfterFee(gross, 1)
  {
    FeeMono(least, gross, 1);
  }

  lemma OneWalletNoShortfall()
    ensures Sells(Reserves(1, 1), [1], 1)
    ensures Proceeds(Reserves(1, 1), [1], 1) == 0 == QuoteOutForTokens(1, 1, Sum([1]), 1, 0)
  {
    assert [1][1..] == [];
    assert Sum([1]) == 1 + Sum([]);
  }

  /** Exits that fall the whole shortfall short of their quote. */
  lemma ShortfallReached(n: nat) returns (c: Reserves, order: seq<int>)
    requires 1 <= n
    ensures Sells(c, order, n)
    ensures Proceeds(c, order, 1) + Shortfall(n) == QuoteOutForTokens(c.quote, c.tokens, Sum(order), 1, 0)
  {
    if n == 1 {
      OneWalletNoShortfall();
      c, order := Reserves(1, 1), [1];
    } else {
      SteepShortfall(n);
      c, order := Reserves(n * n, SteepTokens(n * n, n)), SteepAmounts(n * n, n);
    }
  }

  lemma {:induction false} OnesPayNothing(n: nat)
    ensures SumAfterFee(seq(n, _ => 1), 1) == 0
  {
    if n > 0 {
      OnesPayNothing(n - 1);
      assert seq(n, _ => 1)[1..] == seq(n - 1, _ => 1);
    }
  }

  /** The shortfall is the least margin at which every exit of n wallets covers its cost. */
  lemma LeastMargin(n: nat, margin: int)
    requires 1 <= n
    ensures MarginCovers(n, margin) <==> Shortfall(n) <= margin
  {
    if Shortfall(n) <= margin {
      forall c: Reserves, order: seq<int>, feeBps: int, totalCost: int | Sells(c, order, n)
        ensures Covers(c, order, QuoteOutForTokens(c.quote, c.tokens, Sum(order), feeBps, 0), margin, feeBps, totalCost)
      {
        QuoteBracketsProceeds(c, order, feeBps);
      }
    } else {
      var c, order := ShortfallReached(n);
      var proceeds := Proceeds(c, order, 1);
      assert !Covers(c, order, QuoteOutForTokens(c.quote, c.tokens, Sum(order), 1, 0), margin, 1, proceeds);
    }
  }

  /** Without a margin the decision covers its cost exactly when at most one wallet holds tokens. */
  lemma AlwaysCoversIffOneWallet(n: nat)
    requires 1 <= n
    ensures MarginCovers(n, 0) <==> n == 1
  {
    LeastMargin(n, 0);
    ShortfallInWei(n);
  }

  /** With no more wei than tokens, single tokens bring in nothing. */
  lemma {:induction false} PoorCurvePaysNothing(quote: int, tokens: int, n: nat)
    requires 1 <= quote <= tokens
    ensures Proceeds(Reserves(quote, tokens), seq(n, _ => 1), 0) == 0
    decreases n
  {
    if n > 0 {
      FloorBelow(1, quote * 1, tokens + 1);
      FloorAtLeast(0, quote * 1, tokens + 1);
      assert SellStep(Reserves(quote, tokens), 1) == Reserves(quote, tokens + 1);
      PoorCurvePaysNothing(quote, tokens + 1, n - 1);
      assert seq(n, _ => 1)[1..] == seq(n - 1, _ => 1);
    }
  }

  /** Nor does it need a fee: any two or more wallets with one token each clear at a cost of
      one wei for one wei. */
  lemma ClearsAtItsCost(n: nat)
    requires 2 <= n
    ensures var c, order := Reserves(3, 1), seq(n, _ => 1);
            && Sum(order) == n
            && RetailBuyResponse(QuoteSellAll(Some(c), n, 0), 1, true) == ClearAll
            && Proceeds(c, order, 0) == 1
  {
    var c, order := Reserves(3, 1), seq(n, _ => 1);
    SumOfOnes(n);
    FloorAtLeast(2, 3 * n, 1 + n);
    assert SellStep(c, 1) == Reserves(2, 2);
    assert order[1..] == seq(n - 1, _ => 1);
    PoorCurvePaysNothing(2, 2, n - 1);
  }

  lemma {:induction false} SumOfOnes(n: nat)
    ensures Sum(seq(n, _ => 1)) == n
  {
    if n > 0 {
      SumOfOnes(n - 1);
      assert seq(n, _ => 1)[1..] == seq(n - 1, _ => 1);
    }
  }

  // ---------------------------------------------------------------------
  // A quote for the tracked position
  // ---------------------------------------------------------------------

  /** The decision quotes the position the monitor tracks, the sells come from what the wallets hold. */
  ghost predicate TrackedCovers(order: seq<int>, tracked: nat) {
    forall c: Reserves, feeBps: int, totalCost: int ::
      c.Live() ==> Covers(c, order, QuoteSellAll(Some(c), tracked, feeBps), Shortfall(|order|), feeBps, totalCost)
  }

  lemma CrossProducts(quote: int, tokens: int, a: int, b: int)
    requires 0 <= quote && 0 < tokens && 0 <= a <= b
    ensures (quote * a) * (tokens + b) <= (quote * b) * (tokens + a)
  {
    MulMono(a, b, tokens);
    MulMono(a * tokens, b * tokens, quote);
    assert (quote * a) * (tokens + b) == (a * tokens) * quote + (quote * a) * b;
    assert (quote * b) * (tokens + a) == (b * tokens) * quote + (quote * a) * b;
  }

  lemma CrossQuotes(g: int, quote: int, tokens: int, a: int, b: int)
    requires 0 <= quote && 0 < tokens && 0 <= a <= b && g * (tokens + a) <= quote * a
    ensures g * (tokens + b) <= quote * b
  {
    var da, db := tokens + a, tokens + b;
    CrossProducts(quote, tokens, a, b);
    MulMono(g * da, quote * a, db);
    assert (g * db) * da == (g * da) * db;
    MulCancel(g * db, quote * b, da);
  }

  lemma GrossMono(quote: int, tokens: int, a: int, b: int)
    requires 0 <= quote && 0 < tokens && 0 <= a <= b
    ensures quote * a / (tokens + a) <= quote * b / (tokens + b)
  {
    var g := quote * a / (tokens + a);
    FloorDiv(quote * a, tokens + a);
    CrossQuotes(g, quote, tokens, a, b);
    FloorAtLeast(g, quote * b, tokens + b);
  }

  /** More tokens quote at least as much. */
  lemma QuoteMono(c: Reserves, fewer: nat, more: nat, feeBps: int)
    requires c.Live() && fewer <= more
    ensures QuoteSellAll(Some(c), fewer, feeBps) <= QuoteSellAll(Some(c), more, feeBps)
  {
    GrossMono(c.quote, c.tokens, fewer, more);
    MulMono(0, fewer, c.quote);
    MulMono(0, more, c.quote);
    FloorAtLeast(0, c.quote * more, c.tokens + more);
    FeeMono(GrossOut(c.quote, c.tokens, fewer), GrossOut(c.quote, c.tokens, more), feeBps);
  }

  /** With that margin the decision covers its cost exactly when no more is tracked than is held. */
  lemma TrackedCoversIffHeld(order: seq<int>, tracked: nat)
    requires order != [] && forall i :: 0 <= i < |order| ==> 0 < order[i]
    ensures TrackedCovers(order, tracked) <==> tracked <= Sum(order)
  {
    SumNonNegative(order);
    if tracked <= Sum(order) {
      forall c: Reserves, feeBps: int, totalCost: int | c.Live()
        ensures Covers(c, order, QuoteSellAll(Some(c), tracked, feeBps), Shortfall(|order|), feeBps, totalCost)
      {
        QuoteMono(c, tracked, Sum(order), feeBps);
        QuoteBracketsProceeds(c, order, feeBps);
        assert 0 < order[0] <= Sum(order);
      }
    } else {
      assert 0 < order[0] <= Sum(order);
      var c, proceeds := OverTracked(order, tracked, Shortfall(|order|));
      assert !Covers(c, order, QuoteSellAll(Some(c), tracked, 0), Shortfall(|order|), 0, proceeds);
    }
  }

  /** Tracking more than is held, no margin helps: some reserves quote the difference above it. */
  lemma OverTracked(order: seq<int>, tracked: nat, margin: int) returns (c: Reserves, proceeds: int)
    requires order != [] && forall i :: 0 <= i < |order| ==> 0 < order[i]
    requires 0 < Sum(order) < tracked
    ensures c.Live() && proceeds == Proceeds(c, order, 0)
    ensures proceeds < QuoteSellAll(Some(c), tracked, 0) - margin
  {
    var held, k := Sum(order), if margin < 0 then 1 else margin + 1;
    c := Reserves(k * ((1 + held) * (1 + tracked)), 1);
    proceeds := OverTrackedProceeds(c, order, tracked, held, k);
  }

  lemma OverTrackedProceeds(c: Reserves, order: seq<int>, tracked: nat, held: nat, k: nat) returns (proceeds: int)
    requires order != [] && forall i :: 0 <= i < |order| ==> 0 < order[i]
    requires 0 < held == Sum(order) < tracked && 0 < k && c == Reserves(k * ((1 + held) * (1 + tracked)), 1)
    ensures c.Live() && proceeds == Proceeds(c, order, 0) && proceeds + k <= QuoteSellAll(Some(c), tracked, 0)
  {
    MulPos(1 + held, 1 + tracked);
    MulPos(k, (1 + held) * (1 + tracked));
    proceeds := Proceeds(c, order, 0);
    QuoteBracketsProceeds(c, order, 0);
    QuotesApart(c, held, tracked, k);
  }

  lemma QuotesApart(c: Reserves, held: nat, tracked: nat, k: nat)
    requires 0 < held < tracked && c == Reserves(k * ((1 + held) * (1 + tracked)), 1) && c.Live()
    ensures QuoteOutForTokens(c.quote, 1, held, 0, 0) + k <= QuoteOutForTokens(c.quote, 1, tracked, 0, 0)
  {
    ExactGross(k, 1 + tracked, held);
    ExactGross(k, 1 + held, tracked);
    assert (1 + tracked) * (1 + held) == (1 + held) * (1 + tracked);
    assert (k * (1 + held)) * tracked - (k * (1 + tracked)) * held == k * (tracked - held);
    MulMono(1, tracked - held, k);
  }

  lemma ExactGross(k: int, d: int, amount: nat)
    requires 0 < d
    ensures k * (d * (1 + amount)) * amount / (1 + amount) == (k * d) * amount
  {
    var n := 1 + amount;
    assert k * (d * n) * amount == ((k * d) * n) * amount;
    assert ((k * d) * n) * amount == ((k * d) * amount) * n;
    ExactQuotient((k * d) * amount, n, k * (d * n) * amount);
  }

  /** The exit's sells, in any order, are the wallets' holdings. */
  lemma HeldIsPositive(balances: seq<nat>, order: seq<int>)
    requires multiset(order) == multiset(Amounts(Held(balances)))
    ensures Sum(order) == Sum(balances) && forall i :: 0 <= i < |order| ==> 0 < order[i]
  {
    HeldIsSound(balances);
    HeldTotal(balances);
    var held := Amounts(Held(balances));
    SumOfPermutation(order, held);
    forall i | 0 <= i < |order|
      ensures 0 < order[i]
    {
      assert order[i] in multiset(order);
      assert order[i] in held;
      var j :| 0 <= j < |held| && held[j] == order[i];
      assert Clears(Held(balances)[j], balances);
    }
  }

  /** A full exit decided with the margin on the tracked position covers its total cost, sell
      gas aside, in whatever order its wallets sell, when no more is tracked than they hold. */
  lemma ClearAllCoversCost(c: Reserves, balances: seq<nat>, tracked: nat, feeBps: int, totalCost: int, known: bool,
                           order: seq<int>)
    requires c.Live() && order != []
    requires multiset(order) == multiset(Amounts(Held(balances))) && tracked <= Sum(balances)
    requires var proceeds := QuoteSellAll(Some(c), tracked, feeBps);
             RetailBuyResponse(proceeds - Shortfall(|order|), totalCost, known) == ClearAll
    ensures totalCost < Proceeds(c, order, feeBps)
  {
    HeldIsPositive(balances, order);
    TrackedCoversIffHeld(order, tracked);
    assert Covers(c, order, QuoteSellAll(Some(c), tracked, feeBps), Shortfall(|order|), feeBps, totalCost);
  }
}
