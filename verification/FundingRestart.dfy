/** Restarting while transfers of a stopped run are still pending: the new run reads a balance
    they have not reduced yet, and what it sends is mined after them. */
module FundingRestart {
  import opened FloorMath
  import opened FundingPlan
  import opened FundingLedger
  import opened FundingRun

  // ---------------------------------------------------------------------
  // One sender's planned transfers
  // ---------------------------------------------------------------------

  /** The transfers of one sender, all mined, at these gas costs. */
  function Mined(from: Account, to: seq<Account>, values: seq<nat>, fees: seq<nat>, reserve: nat): (moves: seq<Move>)
    requires |values| == |fees| <= |to|
    ensures |moves| == |values|
  {
    seq(|values|, k requires 0 <= k < |values| => Paid(from, to[k], values[k], fees[k], reserve))
  }

  /** Gas kept back and not used. */
  function Unused(fees: seq<nat>, reserve: nat): int {
    if fees == [] then 0 else Unused(fees[..|fees| - 1], reserve) + reserve - fees[|fees| - 1]
  }

  /** What the sender plans to part with at most: every value with its whole reserve. */
  function Planned(values: seq<nat>, reserve: nat): int {
    Sum(values) + |values| * reserve
  }

  predicate Fees(fees: seq<nat>, values: seq<nat>, reserve: nat) {
    |fees| == |values| && forall k :: 0 <= k < |fees| ==> fees[k] <= reserve
  }

  lemma PlannedSnoc(values: seq<nat>, value: nat, reserve: nat)
    ensures Planned(values + [value], reserve) == Planned(values, reserve) + value + reserve
  {
    SumSnoc(values, value);
    assert |values + [value]| * reserve == |values| * reserve + reserve;
  }

  lemma MinedSnoc(from: Account, to: seq<Account>, values: seq<nat>, fees: seq<nat>, reserve: nat, n: nat)
    requires |values| == |fees| == n + 1 <= |to|
    ensures Mined(from, to, values, fees, reserve)
            == Mined(from, to, values[..n], fees[..n], reserve) + [Paid(from, to[n], values[n], fees[n], reserve)]
  {
  }

  /** While they are possible, transfers leave the sender what they plan for less, but for the gas they did not use. */
  lemma {:induction false} SenderLeft(kind: Kind, n: nat, m: Ledger, from: Account, to: seq<Account>,
                                      values: seq<nat>, fees: seq<nat>, reserve: nat)
    requires |values| == |fees| <= |to| && from !in to
    requires AllPossible(kind, n, m, Mined(from, to, values, fees, reserve))
    ensures Balance(After(m, Mined(from, to, values, fees, reserve)), from)
            == Balance(m, from) - Planned(values, reserve) + Unused(fees, reserve)
    decreases |values|
  {
    if values != [] {
      var k := |values| - 1;
      MinedSnoc(from, to, values, fees, reserve, k);
      var all, front := Mined(from, to, values, fees, reserve), Mined(from, to, values[..k], fees[..k], reserve);
      assert all[..k] == front;
      SenderLeft(kind, n, m, from, to, values[..k], fees[..k], reserve);
      assert values == values[..k] + [values[k]];
      PlannedSnoc(values[..k], values[k], reserve);
    }
  }

  lemma {:induction false} UnusedBounds(fees: seq<nat>, reserve: nat)
    requires forall k :: 0 <= k < |fees| ==> fees[k] <= reserve
    ensures 0 <= Unused(fees, reserve) <= |fees| * reserve
  {
    if fees != [] {
      var k := |fees| - 1;
      UnusedBounds(fees[..k], reserve);
      assert |fees| * reserve == k * reserve + reserve;
    }
  }

  /** The transfers are all possible exactly when what they plan exceeds the balance by no more than
      the gas that all but the last leave unused. */
  lemma {:induction false} PossibleIff(kind: Kind, n: nat, m: Ledger, from: Account, to: seq<Account>,
                                       values: seq<nat>, fees: seq<nat>, reserve: nat)
    requires PaysForward(kind, n, from, to) && |values| <= |to| && values != [] && Fees(fees, values, reserve)
    ensures AllPossible(kind, n, m, Mined(from, to, values, fees, reserve))
            <==> Planned(values, reserve) <= Balance(m, from) + Unused(fees[..|fees| - 1], reserve)
    decreases |values|
  {
    var k := |values| - 1;
    var all, front := Mined(from, to, values, fees, reserve), Mined(from, to, values[..k], fees[..k], reserve);
    MinedSnoc(from, to, values, fees, reserve, k);
    assert all[..k] == front;
    ForwardIsElsewhere(kind, n, from, to);
    assert values == values[..k] + [values[k]];
    PlannedSnoc(values[..k], values[k], reserve);
    if k == 0 {
      assert Planned(values[..0], reserve) == 0;
    } else {
      PossibleIff(kind, n, m, from, to, values[..k], fees[..k], reserve);
      UnusedBounds(fees[..k], reserve);
      assert Unused(fees[..k], reserve) == Unused(fees[..k][..k - 1], reserve) + reserve - fees[k - 1];
    }
    if AllPossible(kind, n, m, front) {
      SenderLeft(kind, n, m, from, to, values[..k], fees[..k], reserve);
    }
  }

  // ---------------------------------------------------------------------
  // A restart over pending transfers
  // ---------------------------------------------------------------------

  /** What the pending transfers take from the sender before anything of the new run is mined. */
  function Taken(m: Ledger, pending: seq<Move>, from: Account): int {
    Balance(m, from) - Balance(After(m, pending), from)
  }

  /** Everything a sender plans on the balance it read can be sent at these gas costs. */
  predicate Affordable(kind: Kind, n: nat, m: Ledger, pending: seq<Move>, from: Account, to: seq<Account>,
                       values: seq<nat>, fees: seq<nat>, reserve: nat)
    requires |values| == |fees| <= |to|
  {
    AllPossible(kind, n, After(m, pending), Mined(from, to, values, fees, reserve))
  }

  /** A sender that plans all of the balance it read, as every split and sweep does, can send everything exactly
      when the transfers pending before take no more from it than the gas its own, but for the last, leave unused. */
  lemma RestartIsAffordableIff(kind: Kind, n: nat, m: Ledger, pending: seq<Move>, from: Account, to: seq<Account>,
                               values: seq<nat>, fees: seq<nat>, reserve: nat)
    requires PaysForward(kind, n, from, to) && |values| == |to| && values != [] && Fees(fees, values, reserve)
    requires Planned(values, reserve) == Balance(m, from)
    ensures Affordable(kind, n, m, pending, from, to, values, fees, reserve)
            <==> Taken(m, pending, from) <= Unused(fees[..|fees| - 1], reserve)
  {
    PossibleIff(kind, n, After(m, pending), from, to, values, fees, reserve);
  }

  /** Transfers of the sender that are mined at some cost. */
  predicate SendsAtCost(pending: seq<Move>, from: Account) {
    forall k :: 0 <= k < |pending| ==> !pending[k].Arrived? && pending[k].from == from && 0 < pending[k].fee
  }

  lemma {:induction false} PendingTakes(kind: Kind, n: nat, m: Ledger, pending: seq<Move>, from: Account)
    requires AllPossible(kind, n, m, pending) && SendsAtCost(pending, from)
    ensures |pending| <= Taken(m, pending, from)
    decreases |pending|
  {
    if pending != [] {
      var k := |pending| - 1;
      PendingTakes(kind, n, m, pending[..k], from);
      if pending[k].Paid? {
        EdgesMoveForward(kind, n, from, pending[k].to);
      }
    }
  }

  /** Whatever gas its transfers cost, a sender that restarts can send all it plans if and only
      if none of its own transfers is still pending. */
  lemma RestartNeedsNonePending(kind: Kind, n: nat, m: Ledger, pending: seq<Move>, from: Account, to: seq<Account>,
                                values: seq<nat>, reserve: nat)
    requires PaysForward(kind, n, from, to) && |values| == |to| && values != []
    requires Planned(values, reserve) == Balance(m, from)
    requires AllPossible(kind, n, m, pending) && SendsAtCost(pending, from)
    ensures (forall fees :: Fees(fees, values, reserve) ==>
               Affordable(kind, n, m, pending, from, to, values, fees, reserve))
            <==> pending == []
  {
    PendingTakes(kind, n, m, pending, from);
    forall fees | Fees(fees, values, reserve)
      ensures pending == [] ==> Affordable(kind, n, m, pending, from, to, values, fees, reserve)
    {
      UnusedBounds(fees[..|fees| - 1], reserve);
      RestartIsAffordableIff(kind, n, m, pending, from, to, values, fees, reserve);
    }
    if pending != [] {
      var full := seq(|values|, k requires 0 <= k < |values| => reserve);
      NoneUnused(full[..|full| - 1], reserve);
      RestartIsAffordableIff(kind, n, m, pending, from, to, values, full, reserve);
      assert Fees(full, values, reserve);
    }
  }

  lemma {:induction false} NoneUnused(fees: seq<nat>, reserve: nat)
    requires forall k :: 0 <= k < |fees| ==> fees[k] == reserve
    ensures Unused(fees, reserve) == 0
  {
    if fees != [] {
      NoneUnused(fees[..|fees| - 1], reserve);
    }
  }
}
