/** Exactly which exits can reject one of their own sells when their quote was for any
    amount, rescaled to the batch or not: a finite check on the sizes alone. */
module ExitExact {
  import opened FloorMath
  import opened Curve
  import opened Decide
  import opened ExitPlan
  import opened TargetPlan
  import opened ExitRun
  import opened ExitLimits

  // ---------------------------------------------------------------------
  // Quotients rounded up and down
  // ---------------------------------------------------------------------

  lemma FloorIff(k: int, a: int, d: int)
    requires 0 < d
    ensures k <= a / d <==> k * d <= a
  {
    FloorDiv(a, d);
    if k * d <= a {
      FloorAtLeast(k, a, d);
    } else {
      FloorBelow(k, a, d);
    }
  }

  lemma CeilIff(a: int, d: int, q: int)
    requires 0 < d
    ensures CeilDiv(a, d) <= q <==> a <= q * d
  {
    if a <= q * d {
      CeilAtMost(a, d, q);
    } else if CeilDiv(a, d) <= q {
      MulMono(CeilDiv(a, d), q, d);
    }
  }

  lemma CeilMono(a: int, b: int, d: int)
    requires 0 < d && a <= b
    ensures CeilDiv(a, d) <= CeilDiv(b, d)
  {
    CeilIff(a, d, CeilDiv(b, d));
  }

  // ---------------------------------------------------------------------
  // The least reserve that gives a sell its floor
  // ---------------------------------------------------------------------

  /** The least quote that gives a sell of this amount a floor of this many wei. */
  function NeededQuote(total: int, quoted: int, rescaled: bool, amount: int, floor: int): int
    requires 0 < total && 0 < amount
  {
    var shared := CeilDiv(10_000 * (floor * total), amount);
    if rescaled then CeilDiv(shared * quoted, total) else shared
  }

  /** What a sell is quoted out of a quote q for `quoted` tokens. */
  function ShareOf(q: int, total: int, quoted: int, rescaled: bool, amount: int): int
    requires 0 < total && 0 < quoted
  {
    (if rescaled && quoted != total then q * total / quoted else q) * amount / total
  }

  lemma FloorNeedsQuote(q: int, total: int, quoted: int, rescaled: bool, amount: int, floor: int)
    requires 0 < total && 0 < quoted && 0 < amount
    ensures floor <= ApplySlippage(ShareOf(q, total, quoted, rescaled, amount), SELL_SLIPPAGE_BPS)
            <==> NeededQuote(total, quoted, rescaled, amount, floor) <= q
  {
    var shared := if rescaled && quoted != total then q * total / quoted else q;
    var needed := CeilDiv(10_000 * (floor * total), amount);
    FloorIff(floor, shared * amount / total, BPS_DENOM);
    FloorIff(floor * BPS_DENOM, shared * amount, total);
    assert (floor * BPS_DENOM) * total == 10_000 * (floor * total);
    CeilIff(10_000 * (floor * total), amount, shared);
    if rescaled {
      CeilIff(needed * quoted, total, q);
      if quoted != total {
        FloorIff(needed, q * total, quoted);
      } else {
        MulCancelIff(needed, q, total);
      }
    }
  }

  lemma MulCancelIff(a: int, b: int, c: int)
    requires 0 < c
    ensures a <= b <==> a * c <= b * c
  {
    if a <= b {
      MulMono(a, b, c);
    } else {
      MulMono(b + 1, a, c);
    }
  }

  /** The least quote reserve at which a quote for `quoted` tokens reaches this many wei. */
  function ReserveFor(tokens: int, quoted: int, feeBps: int, need: int): int
    requires 0 < quoted && feeBps < BPS_DENOM
  {
    CeilDiv(CeilDiv(10_000 * need, KeptBps(feeBps)) * (tokens + quoted), quoted)
  }

  lemma QuoteNeedsReserve(c: Reserves, quoted: int, feeBps: int, need: int)
    requires c.Live() && 0 < quoted && feeBps < BPS_DENOM
    ensures need <= QuoteOutForTokens(c.quote, c.tokens, quoted, feeBps, 0)
            <==> ReserveFor(c.tokens, quoted, feeBps, need) <= c.quote
  {
    KeptPositive(feeBps);
    var gross, least := GrossOut(c.quote, c.tokens, quoted), CeilDiv(10_000 * need, KeptBps(feeBps));
    FloorIff(need, gross * KeptBps(feeBps), BPS_DENOM);
    CeilIff(10_000 * need, KeptBps(feeBps), gross);
    FloorIff(least, c.quote * quoted, c.tokens + quoted);
    CeilIff(least * (c.tokens + quoted), quoted, c.quote);
  }

  /** The sizes an exit is decided by: everything but its quote reserve and its wallets. */
  datatype Sizes = Sizes(tokens: int, total: int, quoted: int, feeBps: int, rescaled: bool) {
    predicate Valid() {
      0 < tokens && 0 < total && 0 < quoted && feeBps < BPS_DENOM
    }

    /** Tokens the quote is spread over. */
    function Parts(): int {
      if rescaled then quoted else total
    }

    /** The quote a plan at these reserves is priced by. */
    function Quote(reserve: int): int {
      QuoteOutForTokens(reserve, tokens, quoted, feeBps, 0)
    }
  }

  function ShareReserve(z: Sizes, amount: int, floor: int): int
    requires z.Valid() && 0 < amount
  {
    ReserveFor(z.tokens, z.quoted, z.feeBps, NeededQuote(z.total, z.quoted, z.rescaled, amount, floor))
  }

  /** At a reserve a sell of the amount has at least the floor, exactly from the least one on. */
  lemma FloorNeedsReserve(z: Sizes, reserve: int, amount: int, floor: int)
    requires z.Valid() && 0 < reserve && 0 < amount
    ensures floor <= ApplySlippage(ShareOf(z.Quote(reserve), z.total, z.quoted, z.rescaled, amount), SELL_SLIPPAGE_BPS)
            <==> ShareReserve(z, amount, floor) <= reserve
  {
    FloorNeedsQuote(z.Quote(reserve), z.total, z.quoted, z.rescaled, amount, floor);
    QuoteNeedsReserve(Reserves(reserve, z.tokens), z.quoted, z.feeBps,
                      NeededQuote(z.total, z.quoted, z.rescaled, amount, floor));
  }

  lemma NeededMono(z: Sizes, amount: int, floor: int, more: int, higher: int)
    requires z.Valid() && 0 < amount && 0 < more
    requires CeilDiv(10_000 * (floor * z.total), amount) <= CeilDiv(10_000 * (higher * z.total), more)
    ensures ShareReserve(z, amount, floor) <= ShareReserve(z, more, higher)
  {
    var low, high := CeilDiv(10_000 * (floor * z.total), amount), CeilDiv(10_000 * (higher * z.total), more);
    MulMono(low, high, z.quoted);
    CeilMono(low * z.quoted, high * z.quoted, z.total);
    ReserveMono(z, NeededQuote(z.total, z.quoted, z.rescaled, amount, floor),
                NeededQuote(z.total, z.quoted, z.rescaled, more, higher));
  }

  lemma ReserveMono(z: Sizes, need: int, more: int)
    requires z.Valid() && need <= more
    ensures ReserveFor(z.tokens, z.quoted, z.feeBps, need) <= ReserveFor(z.tokens, z.quoted, z.feeBps, more)
  {
    KeptPositive(z.feeBps);
    var low, high := CeilDiv(10_000 * need, KeptBps(z.feeBps)), CeilDiv(10_000 * more, KeptBps(z.feeBps));
    CeilMono(10_000 * need, 10_000 * more, KeptBps(z.feeBps));
    MulMono(low, high, z.tokens + z.quoted);
    CeilMono(low * (z.tokens + z.quoted), high * (z.tokens + z.quoted), z.quoted);
  }

  /** A larger sell with the same floor asks for no more. */
  lemma LargerNeedsLess(z: Sizes, amount: int, larger: int, floor: int)
    requires z.Valid() && 0 < amount <= larger && 0 <= floor
    ensures ShareReserve(z, larger, floor) <= ShareReserve(z, amount, floor)
  {
    var worth := 10_000 * (floor * z.total);
    MulMono(0, floor, z.total);
    var q := CeilDiv(worth, amount);
    CeilIff(worth, amount, -1);
    MulMono(amount, larger, q);
    CeilIff(worth, larger, q);
    NeededMono(z, larger, floor, amount, floor);
  }

  lemma HigherNeedsMore(z: Sizes, amount: int, floor: int, higher: int)
    requires z.Valid() && 0 < amount && floor <= higher
    ensures ShareReserve(z, amount, floor) <= ShareReserve(z, amount, higher)
  {
    MulMono(floor, higher, z.total);
    CeilMono(10_000 * (floor * z.total), 10_000 * (higher * z.total), amount);
    NeededMono(z, amount, floor, amount, higher);
  }

  lemma NothingNeedsNothing(z: Sizes, amount: int)
    requires z.Valid() && 0 < amount
    ensures ShareReserve(z, amount, 0) == 0
  {
    KeptPositive(z.feeBps);
    CeilOfZero(amount);
    CeilOfZero(z.total);
    CeilOfZero(KeptBps(z.feeBps));
    CeilOfZero(z.quoted);
  }

  lemma ReservePositive(z: Sizes, amount: int, floor: int)
    requires z.Valid() && 0 < amount && 0 < floor
    ensures 0 < ShareReserve(z, amount, floor)
  {
    KeptPositive(z.feeBps);
    MulPos(floor, z.total);
    var shared := CeilDiv(10_000 * (floor * z.total), amount);
    CeilIff(10_000 * (floor * z.total), amount, 0);
    MulPos(shared, z.quoted);
    CeilIff(shared * z.quoted, z.total, 0);
    var need := NeededQuote(z.total, z.quoted, z.rescaled, amount, floor);
    var gross := CeilDiv(10_000 * need, KeptBps(z.feeBps));
    CeilIff(10_000 * need, KeptBps(z.feeBps), 0);
    MulPos(gross, z.tokens + z.quoted);
    CeilIff(gross * (z.tokens + z.quoted), z.quoted, 0);
  }

  // ---------------------------------------------------------------------
  // The worst moment of a sell
  // ---------------------------------------------------------------------

  /** A sell that pays its floor after everything else was sold at once pays it wherever the exit can reach. */
  lemma WorstIsLast(c: Reserves, d: Reserves, amount: int, total: int, feeBps: int, floor: int)
    requires c.Live() && 0 < amount && feeBps < BPS_DENOM && 0 < floor && Reachable(c, d, amount, total)
    requires GrossFromNet(floor, feeBps) * (c.tokens + total)
             <= CeilDiv(c.Product(), c.tokens + total - amount) * amount
    ensures floor <= QuoteOutForTokens(d.quote, d.tokens, amount, feeBps, 0)
  {
    GrossPays(floor, feeBps, -1);
    WorstGross(c.Product(), d.quote, d.tokens, amount, c.tokens + total, GrossFromNet(floor, feeBps));
    FloorAtLeast(GrossFromNet(floor, feeBps), d.quote * amount, d.tokens + amount);
    GrossIsLeast(floor, feeBps, GrossOut(d.quote, d.tokens, amount));
  }

  lemma WorstGross(product: int, quote: int, tokens: int, amount: int, u: int, need: int)
    requires 0 < quote && 0 < tokens && 0 < amount && tokens + amount <= u && product <= quote * tokens
    requires 0 <= need && need * u <= CeilDiv(product, u - amount) * amount
    ensures need * (tokens + amount) <= quote * amount
  {
    MulMono(tokens, u - amount, quote);
    CeilIff(product, u - amount, quote);
    MulMono(CeilDiv(product, u - amount), quote, amount);
    MulMono(tokens + amount, u, need);
  }

  /** Selling everything else at once leaves exactly that reserve. */
  lemma LastLeaves(c: Reserves, total: int, amount: int)
    requires c.Live() && 0 < amount <= total
    ensures var d := SellStep(c, total - amount);
            && d.Live() && d.tokens == c.tokens + total - amount
            && d.quote == CeilDiv(c.Product(), c.tokens + total - amount)
  {
    SellKeepsProduct(c, total - amount);
    var d, m := SellStep(c, total - amount), c.tokens + total - amount;
    CeilIff(c.Product(), m, d.quote);
    CeilIff(c.Product(), m, d.quote - 1);
    assert (d.quote - 1) * m == d.quote * m - m;
  }

  /** There the sell misses its floor when its gross output falls short. */
  lemma LastMisses(c: Reserves, total: int, amount: int, feeBps: int, floor: int)
    requires c.Live() && 0 < amount <= total && feeBps < BPS_DENOM && 0 < floor
    requires CeilDiv(c.Product(), c.tokens + total - amount) * amount
             < GrossFromNet(floor, feeBps) * (c.tokens + total)
    ensures var d := SellStep(c, total - amount);
            d.Live() && QuoteOutForTokens(d.quote, d.tokens, amount, feeBps, 0) < floor
  {
    LastLeaves(c, total, amount);
    GrossFallsShort(SellStep(c, total - amount), amount, feeBps, floor);
  }

  lemma GrossFallsShort(d: Reserves, amount: int, feeBps: int, floor: int)
    requires d.Live() && 0 < amount && feeBps < BPS_DENOM && 0 < floor
    requires d.quote * amount < GrossFromNet(floor, feeBps) * (d.tokens + amount)
    ensures QuoteOutForTokens(d.quote, d.tokens, amount, feeBps, 0) < floor
  {
    var gross := GrossOut(d.quote, d.tokens, amount);
    MulPos(d.quote, amount);
    FloorAtLeast(0, d.quote * amount, d.tokens + amount);
    FloorBelow(GrossFromNet(floor, feeBps), d.quote * amount, d.tokens + amount);
    GrossIsLeast(floor, feeBps, gross);
  }

  // ---------------------------------------------------------------------
  // The exact condition
  // ---------------------------------------------------------------------

  /** The least reserve at which a sell has the floor and one of all the rest has a whole one. */
  function ExitReserve(z: Sizes, amount: int, floor: int): int
    requires z.Valid() && 0 < amount <= z.total
  {
    var own := ShareReserve(z, amount, floor);
    if amount < z.total && own < ShareReserve(z, z.total - amount, 1) then ShareReserve(z, z.total - amount, 1) else own
  }

  /** At that reserve, the sell still pays the floor after all the rest was sold. */
  predicate LastSharePays(z: Sizes, amount: int, floor: int)
    requires z.Valid() && 0 < amount <= z.total
  {
    var u := z.tokens + z.total;
    GrossFromNet(floor, z.feeBps) * u <= CeilDiv(ExitReserve(z, amount, floor) * z.tokens, u - amount) * amount
  }

  /** Floors up to this one stand for all. */
  function FloorPeriod(z: Sizes, amount: int): int {
    amount * (KeptBps(z.feeBps) * z.quoted)
  }

  /** How much more reserve a floor asks for one period on. */
  function Stride(z: Sizes): int {
    100_000_000 * (z.Parts() * (z.tokens + z.quoted))
  }

  /** The reserve a floor asks for grows at least as fast as what the last sell needs. */
  predicate KeepsUp(z: Sizes, amount: int) {
    var u := z.tokens + z.total;
    (10_000 * (z.quoted * u)) * (u - amount) <= Stride(z) * z.tokens
  }

  /** Every sell, of whatever amount, pays every floor of one period after all the rest was sold. */
  predicate EveryLastSharePays(z: Sizes)
    requires z.Valid()
  {
    forall amount :: 1 <= amount <= z.total ==>
      KeepsUp(z, amount)
      && forall floor :: 1 <= floor <= amount + FloorPeriod(z, amount) ==> LastSharePays(z, amount, floor)
  }

  ghost predicate PricedBy(z: Sizes, c: Reserves, plans: seq<PlannedSell>) {
    if z.rescaled then PricedFrom(plans, c, z.quoted, z.feeBps) else PricedUnscaled(plans, c, z.quoted, z.feeBps)
  }

  /** An exit of these sizes: any quote reserve, wallets, order of sells and outside buys between. */
  ghost predicate ExitOf(z: Sizes, c: Reserves, plans: seq<PlannedSell>, events: seq<ExitEvent>) {
    && c.tokens == z.tokens && PricedBy(z, c, plans) && Sum(Amounts(plans)) == z.total
    && WholeFloors(plans) && OnceEach(events, |plans|, {}) && OutsideSold(events) == 0
  }

  ghost predicate EveryExitPaid(z: Sizes) {
    forall c: Reserves, plans: seq<PlannedSell>, events: seq<ExitEvent> ::
      ExitOf(z, c, plans, events) ==> EveryFloorPaid(c, plans, events, z.feeBps)
  }

  // --- the condition is enough ---

  lemma SharesOfPlan(z: Sizes, c: Reserves, plans: seq<PlannedSell>, i: nat)
    requires z.Valid() && c.tokens == z.tokens && PricedBy(z, c, plans) && Sum(Amounts(plans)) == z.total
    requires i < |plans|
    ensures 0 < plans[i].amount <= z.total
    ensures plans[i].quote == ShareOf(z.Quote(c.quote), z.total, z.quoted, z.rescaled, plans[i].amount)
  {
    SumNonNegative(Amounts(plans));
    assert Amounts(plans)[i] == plans[i].amount;
  }

  lemma TwoAtMostSum(s: seq<int>, i: nat, j: nat)
    requires i < |s| && j < |s| && i != j && forall k :: 0 <= k < |s| ==> 0 <= s[k]
    ensures s[i] + s[j] <= Sum(s)
  {
    var rest := s[..i] + s[i + 1..];
    SumWithout(s, i);
    SumNonNegative(rest);
    assert rest[if j < i then j else j - 1] == s[j];
  }

  /** The reserve an exit was priced at is one its sell has its floor at, and the rest a whole one. */
  lemma PricedAbove(z: Sizes, c: Reserves, plans: seq<PlannedSell>, i: nat, floor: int)
    requires z.Valid() && c.tokens == z.tokens && PricedBy(z, c, plans) && Sum(Amounts(plans)) == z.total
    requires WholeFloors(plans) && i < |plans| && floor == ApplySlippage(plans[i].quote, SELL_SLIPPAGE_BPS)
    ensures 0 < plans[i].amount <= z.total && ExitReserve(z, plans[i].amount, floor) <= c.quote
  {
    SharesOfPlan(z, c, plans, i);
    var amount := plans[i].amount;
    FloorNeedsReserve(z, c.quote, amount, floor);
    if amount < z.total {
      var j := OtherSell(plans, i);
      SharesOfPlan(z, c, plans, j);
      TwoAtMostSum(Amounts(plans), i, j);
      FloorNeedsReserve(z, c.quote, plans[j].amount, 1);
      LargerNeedsLess(z, plans[j].amount, z.total - amount, 1);
    }
  }

  lemma OneSell(plans: seq<PlannedSell>)
    requires |plans| == 1
    ensures Sum(Amounts(plans)) == plans[0].amount
  {
    assert Amounts(plans) == [plans[0].amount];
    assert Sum([plans[0].amount]) == plans[0].amount + Sum([]);
  }

  lemma OtherSell(plans: seq<PlannedSell>, i: nat) returns (j: nat)
    requires i < |plans| && plans[i].amount < Sum(Amounts(plans))
    ensures j < |plans| && j != i
  {
    if |plans| == 1 {
      OneSell(plans);
    }
    j := if i == 0 then 1 else 0;
  }

  /** One period more of floor is paid when the floor is. */
  lemma {:induction false} EveryFloorOfShare(z: Sizes, amount: int, floor: int)
    requires z.Valid() && 1 <= amount <= z.total && 1 <= floor && EveryLastSharePays(z)
    ensures LastSharePays(z, amount, floor)
    decreases floor
  {
    assert KeepsUp(z, amount);
    PeriodPositive(z, amount);
    if amount + FloorPeriod(z, amount) < floor {
      var low := floor - FloorPeriod(z, amount);
      EveryFloorOfShare(z, amount, low);
      HighFloorRules(z, amount, low);
      HighFloorRules(z, amount, floor);
      ReserveShift(z, amount, low, 1);
      GrossShift(low, z.feeBps, amount * z.quoted);
      OneShareMore(z, amount, GrossFromNet(low, z.feeBps), ShareReserve(z, amount, low));
    }
  }

  lemma PeriodPositive(z: Sizes, amount: int)
    requires z.Valid() && 0 < amount
    ensures amount <= FloorPeriod(z, amount) && FloorPeriod(z, amount) == (amount * z.quoted) * KeptBps(z.feeBps)
  {
    KeptPositive(z.feeBps);
    MulPos(KeptBps(z.feeBps), z.quoted);
    MulMono(1, KeptBps(z.feeBps) * z.quoted, amount);
  }

  /** A floor of at least the amount asks for more than a whole floor of the rest. */
  lemma HighFloorRules(z: Sizes, amount: int, floor: int)
    requires z.Valid() && 1 <= amount <= z.total && amount <= floor
    ensures ExitReserve(z, amount, floor) == ShareReserve(z, amount, floor)
  {
    if amount < z.total {
      HighFloorAsksMore(z.total, z.total - amount, amount, floor);
      NeededMono(z, z.total - amount, 1, amount, floor);
    }
  }

  lemma HighFloorAsksMore(total: int, rest: int, amount: int, floor: int)
    requires 0 < total && 0 < rest && 0 < amount <= floor
    ensures CeilDiv(10_000 * (1 * total), rest) <= CeilDiv(10_000 * (floor * total), amount)
  {
    var worth := 10_000 * total;
    MulMono(1, rest, worth);
    CeilAtMost(worth, rest, worth);
    MulMono(amount, floor, worth);
    assert 10_000 * (floor * total) == floor * worth;
    CeilMono(0 + worth * amount, floor * worth, amount);
    CeilShift(0, amount, worth);
    CeilOfZero(amount);
  }

  /** Floors some periods apart need reserves as many steps apart. */
  lemma ReserveShift(z: Sizes, amount: int, floor: int, k: int)
    requires z.Valid() && 0 < amount
    ensures ShareReserve(z, amount, floor + k * FloorPeriod(z, amount))
            == ShareReserve(z, amount, floor) + k * Stride(z)
  {
    NeededShift(z, amount, floor, k);
    ReserveForShift(z, NeededQuote(z.total, z.quoted, z.rescaled, amount, floor), k * z.Parts());
    TimesStride(k, z.Parts(), z.tokens + z.quoted);
  }

  lemma TimesStride(k: int, parts: int, d: int)
    ensures 100_000_000 * ((k * parts) * d) == k * (100_000_000 * (parts * d))
  {
  }

  lemma Regroup(k: int, kept: int, quoted: int, a: int)
    ensures k * (a * (kept * quoted)) == (k * (kept * quoted)) * a == ((k * a) * quoted) * kept
  {
    var p := kept * quoted;
    assert k * (a * p) == (k * a) * p;
    assert (k * p) * a == (k * a) * p;
    assert (k * a) * p == ((k * a) * quoted) * kept;
  }

  lemma ReserveForShift(z: Sizes, need: int, more: int)
    requires z.Valid()
    ensures ReserveFor(z.tokens, z.quoted, z.feeBps, need + 10_000 * ((more * z.quoted) * KeptBps(z.feeBps)))
            == ReserveFor(z.tokens, z.quoted, z.feeBps, need) + 100_000_000 * (more * (z.tokens + z.quoted))
  {
    KeptPositive(z.feeBps);
    GrossNeededShift(need, KeptBps(z.feeBps), more * z.quoted);
    NetReserveShift(CeilDiv(10_000 * need, KeptBps(z.feeBps)), more, z.quoted, z.tokens + z.quoted);
  }

  lemma GrossNeededShift(need: int, kept: int, x: int)
    requires 0 < kept
    ensures CeilDiv(10_000 * (need + 10_000 * (x * kept)), kept) == CeilDiv(10_000 * need, kept) + 100_000_000 * x
  {
    CeilShift(10_000 * need, kept, 100_000_000 * x);
    assert 10_000 * (need + 10_000 * (x * kept)) == 10_000 * need + (100_000_000 * x) * kept;
  }

  lemma NetReserveShift(gross: int, more: int, quoted: int, d: int)
    requires 0 < quoted
    ensures CeilDiv((gross + 100_000_000 * (more * quoted)) * d, quoted)
            == CeilDiv(gross * d, quoted) + 100_000_000 * (more * d)
  {
    AddTimes(gross, 100_000_000, more, quoted, d);
    CeilShift(gross * d, quoted, 100_000_000 * (more * d));
  }

  lemma AddTimes(a: int, b: int, x: int, y: int, d: int)
    ensures (a + b * (x * y)) * d == a * d + (b * (x * d)) * y
  {
    assert (b * (x * y)) * d == (b * (x * d)) * y;
  }

  lemma NeededShift(z: Sizes, amount: int, floor: int, k: int)
    requires z.Valid() && 0 < amount
    ensures NeededQuote(z.total, z.quoted, z.rescaled, amount, floor + k * FloorPeriod(z, amount))
            == NeededQuote(z.total, z.quoted, z.rescaled, amount, floor)
               + 10_000 * (((k * z.Parts()) * z.quoted) * KeptBps(z.feeBps))
  {
    var step := k * (KeptBps(z.feeBps) * z.quoted);
    Regroup(k, KeptBps(z.feeBps), z.quoted, amount);
    Regroup(k, KeptBps(z.feeBps), z.quoted, z.Parts());
    NeededStep(z.total, z.quoted, z.rescaled, amount, floor, step);
  }

  lemma NeededStep(total: int, quoted: int, rescaled: bool, amount: int, floor: int, step: int)
    requires 0 < total && 0 < amount
    ensures NeededQuote(total, quoted, rescaled, amount, floor + step * amount)
            == NeededQuote(total, quoted, rescaled, amount, floor)
               + 10_000 * (step * if rescaled then quoted else total)
  {
    SharedShift(total, amount, floor, step);
    var shared := CeilDiv(10_000 * (floor * total), amount);
    if rescaled {
      AddTimes(shared, 10_000, step, total, quoted);
      CeilShift(shared * quoted, total, 10_000 * (step * quoted));
    }
  }

  lemma SharedShift(total: int, amount: int, floor: int, step: int)
    requires 0 < amount
    ensures CeilDiv(10_000 * ((floor + step * amount) * total), amount)
            == CeilDiv(10_000 * (floor * total), amount) + 10_000 * (step * total)
  {
    AddTimes(floor, 1, step, amount, total);
    CeilShift(10_000 * (floor * total), amount, 10_000 * (step * total));
    assert 10_000 * ((step * total) * amount) == (10_000 * (step * total)) * amount;
  }

  lemma GrossIsCeil(floor: nat, feeBps: int)
    requires feeBps < BPS_DENOM
    ensures 0 < KeptBps(feeBps) && GrossFromNet(floor, feeBps) == CeilDiv(BPS_DENOM * floor, KeptBps(feeBps))
  {
    KeptPositive(feeBps);
    var least := CeilDiv(BPS_DENOM * floor, KeptBps(feeBps));
    GrossPays(floor, feeBps, least);
    GrossPays(floor, feeBps, GrossFromNet(floor, feeBps));
    CeilAtMost(BPS_DENOM * floor, KeptBps(feeBps), GrossFromNet(floor, feeBps));
  }

  lemma GrossShift(floor: nat, feeBps: int, k: nat)
    requires feeBps < BPS_DENOM
    ensures 0 <= floor + k * KeptBps(feeBps)
    ensures GrossFromNet(floor + k * KeptBps(feeBps), feeBps) == GrossFromNet(floor, feeBps) + BPS_DENOM * k
  {
    KeptPositive(feeBps);
    MulMono(0, k, KeptBps(feeBps));
    GrossIsCeil(floor, feeBps);
    GrossIsCeil(floor + k * KeptBps(feeBps), feeBps);
    assert BPS_DENOM * (floor + k * KeptBps(feeBps)) == BPS_DENOM * floor + (BPS_DENOM * k) * KeptBps(feeBps);
    CeilShift(BPS_DENOM * floor, KeptBps(feeBps), BPS_DENOM * k);
  }

  lemma OneShareMore(z: Sizes, amount: int, gross: int, reserve: int)
    requires z.Valid() && 1 <= amount <= z.total && KeepsUp(z, amount)
    requires var u := z.tokens + z.total;
             gross * u <= CeilDiv(reserve * z.tokens, u - amount) * amount
    ensures var u := z.tokens + z.total;
            (gross + BPS_DENOM * (amount * z.quoted)) * u
            <= CeilDiv((reserve + 1 * Stride(z)) * z.tokens, u - amount) * amount
  {
    var u := z.tokens + z.total;
    StepsUp(reserve, z.tokens, Stride(z), 10_000 * (z.quoted * u), u - amount);
    PaysMore(gross, u, CeilDiv(reserve * z.tokens, u - amount),
             CeilDiv((reserve + 1 * Stride(z)) * z.tokens, u - amount), amount, z.quoted);
  }

  lemma StepsUp(reserve: int, tokens: int, step: int, rise: int, m: int)
    requires 0 < m && rise * m <= step * tokens
    ensures CeilDiv(reserve * tokens, m) + rise <= CeilDiv((reserve + 1 * step) * tokens, m)
  {
    assert (reserve + 1 * step) * tokens == reserve * tokens + step * tokens;
    CeilMono(reserve * tokens + rise * m, reserve * tokens + step * tokens, m);
    CeilShift(reserve * tokens, m, rise);
  }

  lemma PaysMore(gross: int, u: int, left: int, more: int, amount: int, quoted: int)
    requires gross * u <= left * amount && left + 10_000 * (quoted * u) <= more && 0 <= amount
    ensures (gross + 10_000 * (amount * quoted)) * u <= more * amount
  {
    MulMono(left + 10_000 * (quoted * u), more, amount);
    AddTimes(gross, 10_000, quoted, amount, u);
    assert (left + 10_000 * (quoted * u)) * amount == left * amount + (10_000 * (quoted * u)) * amount;
  }

  lemma SharesSuffice(z: Sizes, c: Reserves, plans: seq<PlannedSell>, events: seq<ExitEvent>)
    requires z.Valid() && EveryLastSharePays(z) && ExitOf(z, c, plans, events)
    ensures EveryFloorPaid(c, plans, events, z.feeBps)
  {
    forall i: nat, d: Reserves | i < |plans| && Reachable(c, d, plans[i].amount, Sum(Amounts(plans)) + 0)
      ensures PaysAt(plans, i, d, z.feeBps)
    {
      SharePaysAt(z, c, plans, i, d);
    }
    PaysThroughoutIsSafe(c, plans, z.feeBps, events);
  }

  lemma SharePaysAt(z: Sizes, c: Reserves, plans: seq<PlannedSell>, i: nat, d: Reserves)
    requires z.Valid() && c.tokens == z.tokens && PricedBy(z, c, plans) && Sum(Amounts(plans)) == z.total
    requires WholeFloors(plans) && EveryLastSharePays(z)
    requires i < |plans| && Reachable(c, d, plans[i].amount, z.total)
    ensures PaysAt(plans, i, d, z.feeBps)
  {
    var floor, amount, u := ApplySlippage(plans[i].quote, SELL_SLIPPAGE_BPS), plans[i].amount, z.tokens + z.total;
    PricedAbove(z, c, plans, i, floor);
    EveryFloorOfShare(z, amount, floor);
    var reserve := ExitReserve(z, amount, floor);
    MulMono(reserve, c.quote, z.tokens);
    CeilMono(reserve * z.tokens, c.quote * z.tokens, u - amount);
    MulMono(CeilDiv(reserve * z.tokens, u - amount), CeilDiv(c.quote * z.tokens, u - amount), amount);
    WorstIsLast(c, d, amount, z.total, z.feeBps, floor);
  }

  // --- and needed ---

  /** The plan of one or two wallets that sells the amount last. */
  function PlanOf(z: Sizes, reserve: int, amount: int): seq<PlannedSell>
    requires z.Valid()
  {
    var q, rest := z.Quote(reserve), z.total - amount;
    (if rest == 0 then [] else [PlannedSell(1, rest, ShareOf(q, z.total, z.quoted, z.rescaled, rest))])
    + [PlannedSell(0, amount, ShareOf(q, z.total, z.quoted, z.rescaled, amount))]
  }

  function SellsOf(z: Sizes, amount: int): seq<ExitEvent> {
    if amount == z.total then [SellWallet(0)] else [SellWallet(0), SellWallet(1)]
  }

  lemma PlanTotal(z: Sizes, reserve: int, amount: int)
    requires z.Valid() && 1 <= amount <= z.total
    ensures Sum(Amounts(PlanOf(z, reserve, amount))) == z.total
  {
    var plans := PlanOf(z, reserve, amount);
    if amount == z.total {
      assert Amounts(plans) == [amount];
      assert Sum([amount]) == amount + Sum([]);
    } else {
      assert Amounts(plans) == [z.total - amount, amount];
      assert Sum([z.total - amount, amount]) == z.total - amount + Sum([amount]);
    }
  }

  lemma PlanIsExit(z: Sizes, amount: int, floor: int)
    requires z.Valid() && 1 <= amount <= z.total && 1 <= floor
    ensures var reserve := ExitReserve(z, amount, floor);
            && 0 < reserve
            && ExitOf(z, Reserves(reserve, z.tokens), PlanOf(z, reserve, amount), SellsOf(z, amount))
            && floor <= ApplySlippage(ShareOf(z.Quote(reserve), z.total, z.quoted, z.rescaled, amount),
                                      SELL_SLIPPAGE_BPS)
  {
    var reserve := ExitReserve(z, amount, floor);
    var plans, sells := PlanOf(z, reserve, amount), SellsOf(z, amount);
    ReservePositive(z, amount, floor);
    FloorNeedsReserve(z, reserve, amount, floor);
    PlanTotal(z, reserve, amount);
    if amount < z.total {
      FloorNeedsReserve(z, reserve, z.total - amount, 1);
      assert sells[1..] == [SellWallet(1)] && [SellWallet(1)][1..] == [];
      assert OnceEach([SellWallet(1)], 2, {} + {0});
      assert OutsideSold(sells) == OutsideSold([SellWallet(1)]) == OutsideSold([]);
    } else {
      assert sells[1..] == [];
    }
    assert WholeFloors(plans);
    assert PricedBy(z, Reserves(reserve, z.tokens), plans);
  }

  lemma PlanMisses(z: Sizes, amount: int, floor: int)
    requires z.Valid() && 1 <= amount <= z.total && 1 <= floor && !LastSharePays(z, amount, floor)
    ensures !EveryExitPaid(z)
  {
    var reserve := ExitReserve(z, amount, floor);
    var c, plans, sells := Reserves(reserve, z.tokens), PlanOf(z, reserve, amount), SellsOf(z, amount);
    PlanIsExit(z, amount, floor);
    LastMisses(c, z.total, amount, z.feeBps, floor);
    LastFloorUnpaid(z, c, plans, amount, floor);
    assert ExitOf(z, c, plans, sells);
  }

  lemma LastFloorUnpaid(z: Sizes, c: Reserves, plans: seq<PlannedSell>, amount: int, floor: int)
    requires z.Valid() && 1 <= amount <= z.total && 1 <= floor && c.Live()
    requires plans == PlanOf(z, c.quote, amount)
    requires floor <= ApplySlippage(plans[|plans| - 1].quote, SELL_SLIPPAGE_BPS)
    requires var d := SellStep(c, z.total - amount);
             d.Live() && QuoteOutForTokens(d.quote, d.tokens, amount, z.feeBps, 0) < floor
    ensures !EveryFloorPaid(c, plans, SellsOf(z, amount), z.feeBps)
  {
    var d := SellStep(c, z.total - amount);
    if amount < z.total {
      assert SellsOf(z, amount)[1..] == [SellWallet(1)];
      assert !EveryFloorPaid(d, plans, [SellWallet(1)], z.feeBps);
    }
  }

  /** Where the reserve does not keep up, a high enough floor is missed. */
  lemma FallsBehind(z: Sizes, amount: int) returns (floor: int)
    requires z.Valid() && 1 <= amount <= z.total && !KeepsUp(z, amount)
    ensures 1 <= floor && !LastSharePays(z, amount, floor)
  {
    var u := z.tokens + z.total;
    var m := u - amount;
    PeriodPositive(z, amount);
    floor := 0 + m * FloorPeriod(z, amount);
    MulMono(1, m, FloorPeriod(z, amount));
    ReserveShift(z, amount, 0, m);
    NothingNeedsNothing(z, amount);
    HighFloorRules(z, amount, floor);
    GrossOfPeriods(z, amount, m);
    BehindAtLast(z.quoted, u, m, Stride(z), z.tokens, amount);
  }

  lemma GrossOfPeriods(z: Sizes, amount: int, k: int)
    requires z.Valid() && 0 < amount && 0 < k
    ensures GrossFromNet(0 + k * FloorPeriod(z, amount), z.feeBps) == 10_000 * (k * (amount * z.quoted))
  {
    PeriodPositive(z, amount);
    MulPos(amount, z.quoted);
    MulPos(k, amount * z.quoted);
    GrossShift(0, z.feeBps, k * (amount * z.quoted));
    assert k * FloorPeriod(z, amount) == (k * (amount * z.quoted)) * KeptBps(z.feeBps);
  }

  lemma BehindAtLast(quoted: int, u: int, m: int, step: int, tokens: int, amount: int)
    requires 0 < m && 0 < amount && step * tokens < (10_000 * (quoted * u)) * m
    ensures CeilDiv((0 + m * step) * tokens, m) * amount < (10_000 * (m * (amount * quoted))) * u
  {
    var rise := (10_000 * (quoted * u)) * m;
    assert (0 + m * step) * tokens == 0 + (step * tokens) * m;
    CeilShift(0, m, step * tokens);
    CeilOfZero(m);
    MulMono(step * tokens + 1, rise, amount);
    assert (10_000 * (m * (amount * quoted))) * u == rise * amount;
  }

  /** No exit of these sizes rejects one of its own sells, at any quote reserve, wallets, order and outside buys,
      if and only if, for each amount and each floor of one period, the last sell pays after all the rest. */
  lemma ExactlyPaidAtAnyQuote(z: Sizes)
    requires z.Valid()
    ensures EveryExitPaid(z) <==> EveryLastSharePays(z)
  {
    if EveryLastSharePays(z) {
      forall c: Reserves, plans: seq<PlannedSell>, events: seq<ExitEvent> | ExitOf(z, c, plans, events)
        ensures EveryFloorPaid(c, plans, events, z.feeBps)
      {
        SharesSuffice(z, c, plans, events);
      }
    } else {
      var amount :| 1 <= amount <= z.total
                    && !(KeepsUp(z, amount)
                         && forall floor :: 1 <= floor <= amount + FloorPeriod(z, amount) ==>
                              LastSharePays(z, amount, floor));
      if KeepsUp(z, amount) {
        var floor :| 1 <= floor <= amount + FloorPeriod(z, amount) && !LastSharePays(z, amount, floor);
        PlanMisses(z, amount, floor);
      } else {
        var floor := FallsBehind(z, amount);
        PlanMisses(z, amount, floor);
      }
    }
  }

  /** With a fee of everything there is no such exit to reject a sell. */
  lemma NoExitAtFullFee(z: Sizes, c: Reserves, plans: seq<PlannedSell>, events: seq<ExitEvent>)
    requires 0 < z.total && BPS_DENOM <= z.feeBps
    ensures !ExitOf(z, c, plans, events)
  {
    if ExitOf(z, c, plans, events) {
      assert plans == [] ==> Amounts(plans) == [];
      var floor := ApplySlippage(plans[0].quote, SELL_SLIPPAGE_BPS);
      if z.rescaled {
        PricedFloors(plans, c, z.quoted, z.feeBps);
        FullFeeFloor(floor, c.tokens + z.quoted, c.quote, plans[0].amount * 1, z.feeBps);
      } else {
        UnscaledFloors(plans, c, z.quoted, z.feeBps);
        MulPos(c.tokens + z.quoted, z.total);
        FullFeeFloor(floor, (c.tokens + z.quoted) * z.total, c.quote, plans[0].amount * z.quoted, z.feeBps);
      }
    }
  }
}
