/** The strategy's decision and scaling rules. */
module Decide {
  import opened FloorMath
  import opened Curve

  /** Only 0.01% of a sell's quote is kept as its minimum output. */
  const SELL_SLIPPAGE_BPS := 9_999

  /** The market maker's mode. */
  datatype State = Launching | Accumulating | Distributing | ClearAll | Done

  /** A retail buy is answered by a full exit only when its proceeds beat a known total cost. */
  function RetailBuyResponse(sellAllProceeds: int, totalCost: int, costBasisKnown: bool): State {
    if costBasisKnown && sellAllProceeds > totalCost then ClearAll else Distributing
  }

  /** Net ETH invested plus gas and launch fee; an unset figure counts as zero. */
  function TotalCostWei(gasFee: int, launchFee: int, netSpent: int): int {
    gasFee + launchFee + netSpent
  }

  /** The least acceptable output of a swap. */
  function ApplySlippage(amount: int, slippageBps: int): int {
    var kept := if BPS_DENOM - slippageBps < 0 then 0 else BPS_DENOM - slippageBps;
    amount * kept / BPS_DENOM
  }

  /** The least output a sell accepts for its quote: never below one wei. */
  function MinOut(quote: int): int {
    var floor := ApplySlippage(quote, SELL_SLIPPAGE_BPS);
    if floor == 0 then 1 else floor
  }

  /** An exact fraction or price; its denominator is positive. */
  datatype Ratio = Ratio(num: int, den: int) {
    predicate Valid() {
      0 < den
    }

    predicate AtMost(other: Ratio) {
      num * other.den <= other.num * den
    }
  }

  /** The part of an amount that a fraction takes, rounded down; a fraction of one or more takes it all. */
  function ScaleWei(amount: int, frac: Ratio): (scaled: int)
    requires frac.Valid()
    ensures 0 <= amount ==> 0 <= scaled <= amount
  {
    if frac.num <= 0 then 0
    else if frac.den <= frac.num then amount
    else
      assert 0 <= amount ==> amount * frac.num <= amount * frac.den;
      amount * frac.num / frac.den
  }

  /** Scaling takes the largest amount within the fraction, and never more than there is. */
  lemma ScaleIsLargest(amount: nat, frac: Ratio, x: nat)
    requires frac.Valid()
    ensures x <= ScaleWei(amount, frac) <==> x <= amount && (x == 0 || x * frac.den <= amount * frac.num)
  {
    if frac.num <= 0 {
      MulMono(frac.num, 0, amount);
      if 0 < x {
        MulPos(x, frac.den);
      }
    } else if frac.den <= frac.num {
      if x <= amount {
        MulMono(x, amount, frac.den);
        MulMono(frac.den, frac.num, amount);
      }
    } else {
      if x * frac.den <= amount * frac.num {
        FloorAtLeast(x, amount * frac.num, frac.den);
        MulMono(frac.num, frac.den, amount);
        MulCancel(x, amount, frac.den);
      } else {
        FloorBelow(x, amount * frac.num, frac.den);
        MulPos(x, frac.den);
      }
    }
  }

  /** What a wallet may spend on a buy after holding back the gas reserve. */
  function SpendableWei(eth: int, gasReserve: int): (s: nat) {
    if eth - gasReserve < 0 then 0 else eth - gasReserve
  }
}
