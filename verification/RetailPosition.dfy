/** Outside buyers as the monitor sees them: a token position clamped at zero,
    and the volume-weighted price of what they bought since they were last flat. */
module RetailPosition {
  import opened FloorMath
  import opened Decide
  import opened Optional
  import opened TargetPlan

  /** One swap on the curve or in the pool; a zero transaction hash marks a log without identity. */
  datatype Trade = Trade(isBuy: bool, tokens: nat, weth: nat, sender: nat, recipient: nat, tx: nat, index: nat,
                         block: nat)

  /** Wei per whole token; none when no token changed hands. */
  function PriceWeiPerToken(weth: nat, tokens: nat): Option<Ratio> {
    if tokens == 0 then None else Some(Ratio(weth * ONE_WHOLE_TOKEN, tokens))
  }

  datatype Position = Position(net: nat, lastBuyPx: Option<Ratio>, buyWeth: nat, buyTokens: nat)

  const FLAT := Position(0, None, 0, 0)

  /** The position after one more outside trade; selling it off starts a fresh average. */
  function Traded(p: Position, t: Trade): Position {
    if t.isBuy then
      Position(p.net + t.tokens, PriceWeiPerToken(t.weth, t.tokens), p.buyWeth + t.weth, p.buyTokens + t.tokens)
    else if p.net - t.tokens <= 0 then FLAT
    else p.(net := p.net - t.tokens)
  }

  function PositionOf(trades: seq<Trade>): Position {
    if trades == [] then FLAT
    else Traded(PositionOf(trades[..|trades| - 1]), trades[|trades| - 1])
  }

  function AveragePrice(p: Position): Option<Ratio> {
    PriceWeiPerToken(p.buyWeth, p.buyTokens)
  }

  // ---------------------------------------------------------------------
  // The clamped walk is the best suffix
  // ---------------------------------------------------------------------

  /** A running total that starts over whenever it would go below zero. */
  function Clamped(steps: seq<int>): (r: nat) {
    if steps == [] then 0
    else
      var next := Clamped(steps[..|steps| - 1]) + steps[|steps| - 1];
      if next < 0 then 0 else next
  }

  /** The largest sum over the suffixes of the steps, the empty one counting zero. */
  ghost predicate BestSuffix(steps: seq<int>, best: int) {
    && (forall i :: 0 <= i <= |steps| ==> Sum(steps[i..]) <= best)
    && (exists i :: 0 <= i <= |steps| && Sum(steps[i..]) == best)
  }

  lemma SuffixSnoc(steps: seq<int>, i: nat)
    requires i < |steps|
    ensures Sum(steps[i..]) == Sum(steps[..|steps| - 1][i..]) + steps[|steps| - 1]
  {
    var n := |steps| - 1;
    assert steps[i..] == steps[..n][i..] + [steps[n]];
    SumSnoc(steps[..n][i..], steps[n]);
  }

  /** One more step extends the best suffix, or starts it over. */
  lemma BestSuffixSnoc(steps: seq<int>, best: int)
    requires steps != [] && BestSuffix(steps[..|steps| - 1], best)
    ensures BestSuffix(steps, if best + steps[|steps| - 1] < 0 then 0 else best + steps[|steps| - 1])
  {
    var n := |steps| - 1;
    forall i | 0 <= i <= n
      ensures Sum(steps[i..]) <= best + steps[n]
    {
      SuffixSnoc(steps, i);
    }
    assert Sum(steps[n + 1..]) == 0;
    var i :| 0 <= i <= n && Sum(steps[..n][i..]) == best;
    SuffixSnoc(steps, i);
  }

  /** A clamped total is the best suffix of its steps. */
  lemma {:induction false} ClampedIsBestSuffix(steps: seq<int>)
    ensures BestSuffix(steps, Clamped(steps))
  {
    if steps == [] {
      assert Sum(steps[0..]) == 0;
    } else {
      ClampedIsBestSuffix(steps[..|steps| - 1]);
      BestSuffixSnoc(steps, Clamped(steps[..|steps| - 1]));
    }
  }

  function SignedAmount(t: Trade): int {
    if t.isBuy then t.tokens else 0 - t.tokens
  }

  /** What outsiders gained or gave up, trade by trade. */
  function Signed(trades: seq<Trade>): (s: seq<int>)
    ensures |s| == |trades|
  {
    seq(|trades|, i requires 0 <= i < |trades| => SignedAmount(trades[i]))
  }

  lemma {:induction false} NetIsClamped(trades: seq<Trade>)
    ensures PositionOf(trades).net == Clamped(Signed(trades))
  {
    if trades != [] {
      var n := |trades| - 1;
      NetIsClamped(trades[..n]);
      assert Signed(trades)[..n] == Signed(trades[..n]);
    }
  }

  /** The net position is the largest balance over any run of the latest trades. */
  lemma NetIsBestSuffix(trades: seq<Trade>)
    ensures BestSuffix(Signed(trades), PositionOf(trades).net)
  {
    NetIsClamped(trades);
    ClampedIsBestSuffix(Signed(trades));
  }

  // ---------------------------------------------------------------------
  // The average since flat
  // ---------------------------------------------------------------------

  /** What was bought since flat covers the position, and there is an average exactly while there is a position. */
  lemma {:induction false} AverageIffHolding(trades: seq<Trade>)
    ensures PositionOf(trades).net <= PositionOf(trades).buyTokens
    ensures AveragePrice(PositionOf(trades)).None? <==> PositionOf(trades).net == 0
  {
    if trades != [] {
      AverageIffHolding(trades[..|trades| - 1]);
    }
  }

  /** How many trades lie before the last moment outsiders held nothing. */
  function FlatAt(trades: seq<Trade>): (k: nat)
    ensures k <= |trades|
  {
    if trades == [] || PositionOf(trades).net == 0 then |trades| else FlatAt(trades[..|trades| - 1])
  }

  lemma {:induction false} FlatAtIsFlat(trades: seq<Trade>)
    ensures PositionOf(trades[..FlatAt(trades)]).net == 0
    ensures forall k :: FlatAt(trades) < k <= |trades| ==> PositionOf(trades[..k]).net > 0
  {
    if trades == [] || PositionOf(trades).net == 0 {
      assert trades[..|trades|] == trades;
    } else {
      var n := |trades| - 1;
      FlatAtIsFlat(trades[..n]);
      assert trades[..n][..FlatAt(trades)] == trades[..FlatAt(trades)];
      forall k | FlatAt(trades) < k <= |trades|
        ensures PositionOf(trades[..k]).net > 0
      {
        assert if k <= n then trades[..n][..k] == trades[..k] else trades[..k] == trades;
      }
    }
  }

  function Buys(trades: seq<Trade>): seq<Trade> {
    if trades == [] then []
    else
      var n := |trades| - 1;
      Buys(trades[..n]) + if trades[n].isBuy then [trades[n]] else []
  }

  function WethOf(trades: seq<Trade>): (s: seq<int>)
    ensures |s| == |trades|
  {
    seq(|trades|, i requires 0 <= i < |trades| => trades[i].weth)
  }

  function TokensOf(trades: seq<Trade>): (s: seq<int>)
    ensures |s| == |trades|
  {
    seq(|trades|, i requires 0 <= i < |trades| => trades[i].tokens)
  }

  predicate PositiveBuys(trades: seq<Trade>) {
    forall i :: 0 <= i < |trades| && trades[i].isBuy ==> 0 < trades[i].tokens
  }

  lemma TotalsSnoc(buys: seq<Trade>, t: Trade)
    ensures Sum(WethOf(buys + [t])) == Sum(WethOf(buys)) + t.weth
    ensures Sum(TokensOf(buys + [t])) == Sum(TokensOf(buys)) + t.tokens
  {
    SumSnoc(WethOf(buys), t.weth);
    SumSnoc(TokensOf(buys), t.tokens);
    assert WethOf(buys + [t]) == WethOf(buys) + [t.weth];
    assert TokensOf(buys + [t]) == TokensOf(buys) + [t.tokens];
  }

  /** The stretch of trades since outsiders were last flat, and the buys in it. */
  function BuysSinceFlat(trades: seq<Trade>): seq<Trade> {
    Buys(trades[FlatAt(trades)..])
  }

  lemma BuysSnoc(trades: seq<Trade>, t: Trade)
    ensures Buys(trades + [t]) == Buys(trades) + if t.isBuy then [t] else []
  {
    assert (trades + [t])[..|trades|] == trades;
  }

  lemma BuysFromSnoc(trades: seq<Trade>, n: nat, k: nat)
    requires |trades| == n + 1 && k <= n
    ensures Buys(trades[k..]) == Buys(trades[..n][k..]) + if trades[n].isBuy then [trades[n]] else []
  {
    assert trades[k..] == trades[..n][k..] + [trades[n]];
    BuysSnoc(trades[..n][k..], trades[n]);
  }

  lemma FlatAtSnoc(trades: seq<Trade>)
    requires trades != [] && PositionOf(trades).net > 0
    ensures FlatAt(trades) == FlatAt(trades[..|trades| - 1])
  {
  }

  lemma SinceFlatSnoc(trades: seq<Trade>)
    requires trades != [] && FlatAt(trades) == FlatAt(trades[..|trades| - 1])
    ensures var n := |trades| - 1;
            BuysSinceFlat(trades) == BuysSinceFlat(trades[..n]) + if trades[n].isBuy then [trades[n]] else []
  {
    BuysFromSnoc(trades, |trades| - 1, FlatAt(trades[..|trades| - 1]));
  }

  /** The totals behind the average are those of the buys since flat, and of no other trade. */
  lemma {:induction false} AverageCoversBuysSinceFlat(trades: seq<Trade>)
    requires PositiveBuys(trades)
    ensures PositionOf(trades).buyWeth == Sum(WethOf(BuysSinceFlat(trades)))
    ensures PositionOf(trades).buyTokens == Sum(TokensOf(BuysSinceFlat(trades)))
  {
    if trades != [] {
      var n := |trades| - 1;
      AverageCoversBuysSinceFlat(trades[..n]);
      if PositionOf(trades).net == 0 {
        assert trades[|trades|..] == [];
      } else {
        FlatAtSnoc(trades);
        SinceFlatSnoc(trades);
        if trades[n].isBuy {
          TotalsSnoc(BuysSinceFlat(trades[..n]), trades[n]);
        } else {
          assert BuysSinceFlat(trades) == BuysSinceFlat(trades[..n]);
        }
      }
    }
  }

  /** Adding a dearer part to a mix keeps the mix above whatever was below it. */
  lemma MixStaysAbove(w: nat, t: nat, mixW: nat, mixT: nat, addW: nat, addT: nat)
    requires 0 < mixT && w * mixT <= mixW * t && mixW * addT <= addW * mixT
    ensures w * (mixT + addT) <= (mixW + addW) * t
  {
    assert w * addT <= addW * t by {
      MulMono(w * mixT, mixW * t, addT);
      MulMono(mixW * addT, addW * mixT, t);
      assert (w * addT) * mixT == (w * mixT) * addT;
      assert (mixW * addT) * t == (mixW * t) * addT;
      assert (addW * t) * mixT == (addW * mixT) * t;
      MulCancel(w * addT, addW * t, mixT);
    }
    assert w * (mixT + addT) == w * mixT + w * addT;
    assert (mixW + addW) * t == mixW * t + addW * t;
  }

  lemma MixStaysBelow(w: nat, t: nat, mixW: nat, mixT: nat, addW: nat, addT: nat)
    requires 0 < mixT && w * mixT >= mixW * t && mixW * addT >= addW * mixT
    ensures w * (mixT + addT) >= (mixW + addW) * t
  {
    assert w * addT >= addW * t by {
      MulMono(mixW * t, w * mixT, addT);
      MulMono(addW * mixT, mixW * addT, t);
      assert (w * addT) * mixT == (w * mixT) * addT;
      assert (mixW * addT) * t == (mixW * t) * addT;
      assert (addW * t) * mixT == (addW * mixT) * t;
      MulCancel(addW * t, w * addT, mixT);
    }
    assert w * (mixT + addT) == w * mixT + w * addT;
    assert (mixW + addW) * t == mixW * t + addW * t;
  }

  /** A trade's price against the average of a set of trades, cross-multiplied. */
  predicate NoDearer(t: Trade, buys: seq<Trade>) {
    t.weth * Sum(TokensOf(buys)) <= Sum(WethOf(buys)) * t.tokens
  }

  predicate NoCheaper(t: Trade, buys: seq<Trade>) {
    t.weth * Sum(TokensOf(buys)) >= Sum(WethOf(buys)) * t.tokens
  }

  /** Some buy is no dearer than the average of all buys, and some buy is no cheaper. */
  lemma {:induction false} AverageIsAMix(buys: seq<Trade>) returns (lo: nat, hi: nat)
    requires buys != [] && forall i :: 0 <= i < |buys| ==> 0 < buys[i].tokens
    ensures lo < |buys| && NoDearer(buys[lo], buys)
    ensures hi < |buys| && NoCheaper(buys[hi], buys)
    ensures 0 < Sum(TokensOf(buys))
  {
    var n := |buys| - 1;
    var front, t := buys[..n], buys[n];
    assert buys == front + [t];
    TotalsSnoc(front, t);
    if n == 0 {
      return 0, 0;
    }
    lo, hi := AverageIsAMix(front);
    SumNonNegative(WethOf(front));
    var w, k := Sum(WethOf(front)), Sum(TokensOf(front));
    if t.weth * k <= w * t.tokens {
      MixStaysBelow(buys[hi].weth, buys[hi].tokens, w, k, t.weth, t.tokens);
      MixOfItself(t, w, k);
      lo := n;
    } else {
      MixStaysAbove(buys[lo].weth, buys[lo].tokens, w, k, t.weth, t.tokens);
      MixOfItself(t, w, k);
      hi := n;
    }
  }

  lemma MixOfItself(t: Trade, w: nat, k: nat)
    ensures t.weth * (k + t.tokens) - (w + t.weth) * t.tokens == t.weth * k - w * t.tokens
  {
    assert t.weth * (k + t.tokens) == t.weth * k + t.weth * t.tokens;
    assert (w + t.weth) * t.tokens == w * t.tokens + t.weth * t.tokens;
  }

  lemma ScaledNoDearer(w: nat, t: nat, mixW: nat, mixT: nat)
    ensures Ratio(w * ONE_WHOLE_TOKEN, t).AtMost(Ratio(mixW * ONE_WHOLE_TOKEN, mixT)) <==> w * mixT <= mixW * t
  {
    assert w * ONE_WHOLE_TOKEN * mixT == (w * mixT) * ONE_WHOLE_TOKEN;
    assert mixW * ONE_WHOLE_TOKEN * t == (mixW * t) * ONE_WHOLE_TOKEN;
  }

  predicate IsBuyPrice(trades: seq<Trade>, i: nat, price: Ratio) {
    i < |trades| && trades[i].isBuy && PriceWeiPerToken(trades[i].weth, trades[i].tokens) == Some(price)
  }

  lemma {:induction false} BuysAreTrades(trades: seq<Trade>)
    ensures forall t :: t in Buys(trades) <==> t in trades && t.isBuy
  {
    if trades != [] {
      BuysAreTrades(trades[..|trades| - 1]);
      assert trades == trades[..|trades| - 1] + [trades[|trades| - 1]];
    }
  }

  /** While outsiders hold tokens, their average price lies between the lowest and the
      highest price they paid since they were last flat. */
  lemma AverageLiesBetween(trades: seq<Trade>) returns (lo: nat, hi: nat, low: Ratio, high: Ratio)
    requires PositiveBuys(trades) && PositionOf(trades).net > 0
    ensures FlatAt(trades) <= lo && IsBuyPrice(trades, lo, low)
    ensures FlatAt(trades) <= hi && IsBuyPrice(trades, hi, high)
    ensures AveragePrice(PositionOf(trades)).Some?
    ensures low.AtMost(AveragePrice(PositionOf(trades)).value)
    ensures AveragePrice(PositionOf(trades)).value.AtMost(high)
  {
    var buys, since := BuysSinceFlat(trades), trades[FlatAt(trades)..];
    AverageIffHolding(trades);
    AverageCoversBuysSinceFlat(trades);
    BuysAreTrades(since);
    assert forall t :: t in since ==> t in trades;
    var l, h := AverageIsAMix(buys);
    assert buys[l] in since && buys[h] in since;
    var i :| 0 <= i < |since| && since[i] == buys[l];
    var j :| 0 <= j < |since| && since[j] == buys[h];
    lo, hi := FlatAt(trades) + i, FlatAt(trades) + j;
    low := Ratio(buys[l].weth * ONE_WHOLE_TOKEN, buys[l].tokens);
    high := Ratio(buys[h].weth * ONE_WHOLE_TOKEN, buys[h].tokens);
    ScaledNoDearer(buys[l].weth, buys[l].tokens, Sum(WethOf(buys)), Sum(TokensOf(buys)));
    ScaledNoDearer(Sum(WethOf(buys)), Sum(TokensOf(buys)), buys[h].weth, buys[h].tokens);
  }
}
