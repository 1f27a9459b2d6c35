/** The concurrent exit: one aggregate quote split over wallets, the slippage
    floor each sell carries, and what the sells really pay in any order. */
module ExitPlan {
  import opened FloorMath
  import opened Curve
  import opened Optional

  /** One sell of an exit: the wallet's position in the list, what it sells, and its share of the quote. */
  datatype PlannedSell = PlannedSell(wallet: nat, amount: int, quote: int)

  /** One-hop quote for a whole position; a failed reserve read quotes nothing. */
  function QuoteSellAll(reserves: Option<Reserves>, tokens: int, feeBps: int): int {
    if tokens == 0 || reserves.None? then 0
    else QuoteOutForTokens(reserves.value.quote, reserves.value.tokens, tokens, feeBps, 0)
  }

  // ---------------------------------------------------------------------
  // Building the plan
  // ---------------------------------------------------------------------

  /** The wallets of a list that hold tokens, in list order, not yet priced. */
  function Held(balances: seq<nat>): seq<PlannedSell> {
    if balances == [] then []
    else
      var n := |balances| - 1;
      Held(balances[..n]) + if balances[n] == 0 then [] else [PlannedSell(n, balances[n], 0)]
  }

  function Amounts(plans: seq<PlannedSell>): (a: seq<int>)
    ensures |a| == |plans|
  {
    seq(|plans|, i requires 0 <= i < |plans| => plans[i].amount)
  }

  /** The shared quote of a batch of `total` tokens, rescaled from one for `quoted`. */
  function SharedFor(c: Reserves, quoted: int, total: int, feeBps: int): int
    requires 0 < quoted
  {
    var q := QuoteOutForTokens(c.quote, c.tokens, quoted, feeBps, 0);
    if quoted == total then q else q * total / quoted
  }

  /** The plan was priced off the reserves c by a quote for `quoted` tokens. */
  ghost predicate PricedFrom(plans: seq<PlannedSell>, c: Reserves, quoted: int, feeBps: int) {
    var total := Sum(Amounts(plans));
    && c.Live() && 0 < quoted && 0 < total
    && (forall i :: 0 <= i < |plans| ==> 0 < plans[i].amount)
    && forall i :: 0 <= i < |plans| ==> plans[i].quote == SharedFor(c, quoted, total, feeBps) * plans[i].amount / total
  }

  /** The immediate exit after a retail buy splits the quote for the tracked position over
      what the wallets hold, without rescaling it. */
  ghost predicate PricedUnscaled(plans: seq<PlannedSell>, c: Reserves, quoted: int, feeBps: int) {
    var q, total := QuoteOutForTokens(c.quote, c.tokens, quoted, feeBps, 0), Sum(Amounts(plans));
    && c.Live() && 0 < quoted && 0 < total
    && (forall i :: 0 <= i < |plans| ==> 0 < plans[i].amount)
    && forall i :: 0 <= i < |plans| ==> plans[i].quote == q * plans[i].amount / total
  }

  /** The plan clears the wallets that hold tokens, each at its part of one shared quote. */
  ghost predicate Shares(plans: seq<PlannedSell>, balances: seq<nat>, shared: int) {
    var held := Held(balances);
    && |plans| == |held| && (held != [] ==> 0 < Sum(balances))
    && forall i :: 0 <= i < |plans| ==>
         plans[i] == PlannedSell(held[i].wallet, held[i].amount, shared * held[i].amount / Sum(balances))
  }

  /** A quote in hand is used only when it is worth something. */
  predicate InHand(quote: Option<int>) {
    quote.Some? && 0 < quote.value
  }

  /** Plans a clearing of every wallet that holds tokens, at one shared price: with nothing in hand
      that of a fresh quote, else that in hand, rescaled when it was fetched for another amount. */
  method PlanFastSells(balances: seq<nat>, reserves: Option<Reserves>, quote: Option<int>, quotedTokens: Option<int>,
                       feeBps: int)
    returns (plans: seq<PlannedSell>)
    ensures !InHand(quote) && reserves.Some? && reserves.value.Live() && Held(balances) != [] ==>
              PricedFrom(plans, reserves.value, Sum(balances), feeBps)
    ensures !InHand(quote) && reserves.Some? ==>
              var c := reserves.value;
              Shares(plans, balances, QuoteOutForTokens(c.quote, c.tokens, Sum(balances), feeBps, 0))
    ensures !InHand(quote) && reserves.None? ==>
              Shares(plans, balances, 0) && forall i :: 0 <= i < |plans| ==> plans[i].quote == 0
    ensures InHand(quote) && quotedTokens.Some? && 0 < quotedTokens.value && quotedTokens.value != Sum(balances) ==>
              Shares(plans, balances, quote.value * Sum(balances) / quotedTokens.value)
    ensures InHand(quote) && (quotedTokens.None? || quotedTokens.value <= 0 || quotedTokens.value == Sum(balances)) ==>
              Shares(plans, balances, quote.value)
  {
    plans := [];
    var total := 0;
    for w := 0 to |balances|
      invariant plans == Held(balances[..w])
      invariant total == Sum(Amounts(plans)) && 0 <= total && (total == 0 <==> plans == [])
    {
      assert balances[..w + 1][..w] == balances[..w];
      if balances[w] == 0 {
        continue;
      }
      SumSnoc(Amounts(plans), balances[w]);
      assert Amounts(plans + [PlannedSell(w, balances[w], 0)]) == Amounts(plans) + [balances[w] as int];
      plans := plans + [PlannedSell(w, balances[w], 0)];
      total := total + balances[w];
    }
    assert balances[..|balances|] == balances;
    HeldTotal(balances);
    if total == 0 {
      return;
    }
    var shared: int;
    if quote.None? || quote.value <= 0 {
      shared := QuoteSellAll(reserves, total, feeBps);
    } else if quotedTokens.Some? && 0 < quotedTokens.value && quotedTokens.value != total {
      shared := quote.value * total / quotedTokens.value;
    } else {
      shared := quote.value;
    }
    ghost var held := plans;
    for i := 0 to |plans|
      invariant |plans| == |held|
      invariant forall j :: 0 <= j < |plans| ==> plans[j].wallet == held[j].wallet && plans[j].amount == held[j].amount
      invariant forall j :: 0 <= j < i ==> plans[j].quote == shared * held[j].amount / total
    {
      plans := plans[i := plans[i].(quote := shared * plans[i].amount / total)];
    }
    SharesAreParts(plans, balances, shared);
    if !InHand(quote) && reserves.Some? && reserves.value.Live() {
      FreshIsPriced(balances, plans, reserves.value, feeBps);
    }
  }

  lemma SharesAreParts(plans: seq<PlannedSell>, balances: seq<nat>, shared: int)
    requires 0 < Sum(balances) && |plans| == |Held(balances)|
    requires forall i :: 0 <= i < |plans| ==>
               plans[i].wallet == Held(balances)[i].wallet && plans[i].amount == Held(balances)[i].amount
    requires forall i :: 0 <= i < |plans| ==> plans[i].quote == shared * Held(balances)[i].amount / Sum(balances)
    ensures Shares(plans, balances, shared)
    ensures shared == 0 ==> forall i :: 0 <= i < |plans| ==> plans[i].quote == 0
  {
    if shared == 0 {
      forall i | 0 <= i < |plans|
        ensures plans[i].quote == 0
      {
        ExactQuotient(0, Sum(balances), 0);
      }
    }
  }

  /** What a shared plan sells: positive amounts that add up to everything held. */
  lemma SharesSellAll(plans: seq<PlannedSell>, balances: seq<nat>, shared: int)
    requires Shares(plans, balances, shared)
    ensures Sum(Amounts(plans)) == Sum(balances)
    ensures forall i :: 0 <= i < |plans| ==> 0 < plans[i].amount
  {
    HeldTotal(balances);
    HeldIsSound(balances);
    assert Amounts(plans) == Amounts(Held(balances));
    forall i | 0 <= i < |plans|
      ensures 0 < plans[i].amount
    {
      assert Clears(Held(balances)[i], balances);
    }
  }

  /** Shares of a fresh quote for the batch are priced off the reserves it was taken at. */
  lemma FreshIsPriced(balances: seq<nat>, plans: seq<PlannedSell>, c: Reserves, feeBps: int)
    requires c.Live() && 0 < Sum(balances)
    requires Shares(plans, balances, QuoteOutForTokens(c.quote, c.tokens, Sum(balances), feeBps, 0))
    ensures PricedFrom(plans, c, Sum(balances), feeBps)
  {
    SharesSellAll(plans, balances, QuoteOutForTokens(c.quote, c.tokens, Sum(balances), feeBps, 0));
  }

  /** So are those of a quote in hand for another amount, rescaled. */
  lemma RescaledIsPriced(balances: seq<nat>, plans: seq<PlannedSell>, c: Reserves, quoted: int, feeBps: int)
    requires c.Live() && 0 < quoted && 0 < Sum(balances)
    requires var q := QuoteOutForTokens(c.quote, c.tokens, quoted, feeBps, 0);
             Shares(plans, balances, if quoted == Sum(balances) then q else q * Sum(balances) / quoted)
    ensures PricedFrom(plans, c, quoted, feeBps)
  {
    SharesSellAll(plans, balances, SharedFor(c, quoted, Sum(balances), feeBps));
  }

  /** A quote in hand whose amount is not named is priced unscaled. */
  lemma NamelessIsUnscaled(balances: seq<nat>, plans: seq<PlannedSell>, c: Reserves, quoted: int, feeBps: int)
    requires c.Live() && 0 < quoted && 0 < Sum(balances)
    requires Shares(plans, balances, QuoteOutForTokens(c.quote, c.tokens, quoted, feeBps, 0))
    ensures PricedUnscaled(plans, c, quoted, feeBps)
  {
    SharesSellAll(plans, balances, QuoteOutForTokens(c.quote, c.tokens, quoted, feeBps, 0));
  }

  /** The plan entry clears its wallet. */
  predicate Clears(p: PlannedSell, balances: seq<nat>) {
    p.wallet < |balances| && 0 < p.amount == balances[p.wallet]
  }

  /** A plan sells only wallets that hold tokens, each in full and once, in list order. */
  lemma {:induction false} HeldIsSound(balances: seq<nat>)
    ensures forall i :: 0 <= i < |Held(balances)| ==> Clears(Held(balances)[i], balances)
    ensures forall i, j :: 0 <= i < j < |Held(balances)| ==> Held(balances)[i].wallet < Held(balances)[j].wallet
  {
    if balances != [] {
      var n := |balances| - 1;
      var front, held := Held(balances[..n]), Held(balances);
      HeldIsSound(balances[..n]);
      assert |front| <= |held| <= |front| + 1;
      forall i | 0 <= i < |held|
        ensures Clears(held[i], balances)
        ensures i < |front| ==> held[i].wallet < n
      {
        if i < |front| {
          assert held[i] == front[i];
          assert Clears(front[i], balances[..n]);
        }
      }
      forall i, j | 0 <= i < j < |held|
        ensures held[i].wallet < held[j].wallet
      {
        assert held[i] == front[i];
        if j < |front| {
          assert held[j] == front[j];
        }
      }
    }
  }

  /** A plan leaves no token holder out. */
  lemma {:induction false} HeldIsComplete(balances: seq<nat>, w: nat)
    requires w < |balances| && 0 < balances[w]
    ensures exists i :: 0 <= i < |Held(balances)| && Held(balances)[i].wallet == w
  {
    var n := |balances| - 1;
    var front := Held(balances[..n]);
    if w < n {
      HeldIsComplete(balances[..n], w);
      var i :| 0 <= i < |front| && front[i].wallet == w;
      assert Held(balances)[i] == front[i];
    } else {
      assert Held(balances)[|front|].wallet == w;
    }
  }

  /** The batch total is the whole holding. */
  lemma {:induction false} HeldTotal(balances: seq<nat>)
    ensures Sum(Amounts(Held(balances))) == Sum(balances)
  {
    if balances != [] {
      var n := |balances| - 1;
      var front := balances[..n];
      HeldTotal(front);
      assert balances == front + [balances[n]];
      SumSnoc(front, balances[n]);
      if balances[n] == 0 {
        assert Held(balances) == Held(front);
      } else {
        assert Amounts(Held(balances)) == Amounts(Held(front)) + [balances[n] as int];
        SumSnoc(Amounts(Held(front)), balances[n]);
      }
    }
  }
}
