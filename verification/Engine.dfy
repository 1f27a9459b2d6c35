/** The market maker itself: the fields its event loop updates, method by method,
    each proved against the step of the state machine it carries out. What the
    network answers (quotes, receipts, balance reads) comes in as parameters. */
module Engine {
  import opened FloorMath
  import opened Decide
  import opened Optional
  import opened EngineSteps
  import opened EngineSafety
  import opened EngineEffects

  lemma HoldersStep(balances: seq<nat>, i: nat)
    requires i < |balances|
    ensures Holders(balances[..i + 1]) == Holders(balances[..i]) + if balances[i] == 0 then [] else [i]
  {
    assert balances[..i + 1][..i] == balances[..i];
  }

  lemma {:induction false} NothingUnsettled(n: nat)
    ensures Sum(seq(n, _ => 0)) == 0
  {
    if n > 0 {
      NothingUnsettled(n - 1);
      assert seq(n, _ => 0) == seq(n - 1, _ => 0) + [0];
      SumSnoc(seq(n - 1, _ => 0), 0);
    }
  }

  class MarketMaker {
    const targetMode: bool
    var state: State
    var pendingBuys: nat
    var retailResponseActive: bool
    var distributionRoundRunning: bool
    var distributionBatchSize: nat
    var tokens: seq<nat>
    var ticking: bool
    var exited: bool
    var round: Round
    var batches: seq<Batch>
    var unsettled: seq<nat>

    /** The engine's fields as one value. */
    function View(): EngineState
      reads this
    {
      EngineState(targetMode, state, pendingBuys, retailResponseActive, distributionRoundRunning,
                  distributionBatchSize, tokens, ticking, exited, round, batches, unsettled)
    }

    /** An engine bound to a token, with the given balances and no buy pending. */
    constructor (target: bool, balances: seq<nat>)
      ensures View() == EngineState(target, Accumulating, 0, false, false, 0, balances, false, false, NoRound, [],
                                    seq(|balances|, _ => 0))
      ensures Started(View())
    {
      targetMode, state, pendingBuys := target, Accumulating, 0;
      retailResponseActive, distributionRoundRunning, distributionBatchSize := false, false, 0;
      tokens, ticking, exited, round, batches := balances, false, false, NoRound, [];
      unsettled := seq(|balances|, _ => 0);
      new;
      NothingUnsettled(|balances|);
    }

    method TotalTokens() returns (total: nat)
      ensures total == Sum(tokens)
    {
      total := 0;
      for i := 0 to |tokens|
        invariant total == Sum(tokens[..i])
      {
        assert tokens[..i + 1] == tokens[..i] + [tokens[i]];
        SumSnoc(tokens[..i], tokens[i]);
        total := total + tokens[i];
      }
      assert tokens[..|tokens|] == tokens;
    }

    /** The wallets that hold tokens, in pool order. */
    method HeldWallets() returns (held: seq<nat>)
      ensures held == Holders(tokens)
    {
      held := [];
      var balances := tokens;
      for i := 0 to |balances|
        invariant held == Holders(balances[..i])
      {
        HoldersStep(balances, i);
        if balances[i] > 0 {
          held := held + [i];
        }
      }
      assert balances[..|balances|] == balances;
    }

    /** The wallets of the next batch: the first of those that hold tokens; the size is drawn on first use. */
    method DistributionWalletBatch(draw: nat) returns (wallets: seq<nat>)
      requires 0 < draw
      modifies this`distributionBatchSize
      ensures wallets == BatchWallets(old(View()), draw)
      ensures wallets == [] <==> Holders(tokens) == []
      ensures Holders(tokens) == [] ==> distributionBatchSize == old(distributionBatchSize)
      ensures Holders(tokens) != [] ==> distributionBatchSize == BatchSize(old(View()), draw)
    {
      var held := HeldWallets();
      if held == [] {
        return [];
      }
      if distributionBatchSize <= 0 {
        distributionBatchSize := draw;
      }
      var size := distributionBatchSize;
      if size > |held| {
        size := |held|;
      }
      wallets := held[..size];
      assert |wallets| == size > 0;
    }

    method StartDistributionRound(draw: nat)
      requires 0 < draw
      modifies this
      ensures View() == DistributionStarted(old(View()), draw)
    {
      if distributionRoundRunning {
        return;
      }
      ghost var before := View();
      var wallets := DistributionWalletBatch(draw);
      assert View() == before.(distributionBatchSize := distributionBatchSize);
      if wallets == [] {
        var total := TotalTokens();
        if pendingBuys == 0 && total == 0 {
          retailResponseActive := false;
          state := Done;
        }
        return;
      }
      distributionRoundRunning := true;
      batches := batches + [SellingBatch(Elements(wallets))];
    }

    method StartTargetResponse(response: Option<Batch>)
      modifies this
      ensures View() == TargetStarted(old(View()), response)
    {
      if distributionRoundRunning {
        return;
      }
      if response.None? {
        return;
      }
      distributionRoundRunning := true;
      batches := batches + [response.value];
    }

    method InterruptBuys()
      modifies this`round
      ensures View() == Interrupted(old(View()))
    {
      round := Cancelled(round);
    }

    /** Whether this retail buy opens a new response; a running one just continues. */
    method BeginRetailDistribution() returns (begun: bool)
      modifies this
      ensures begun <==> !old(retailResponseActive)
      ensures begun ==>
                View() == old(View()).(state := Distributing, retailResponseActive := true, distributionBatchSize := 0)
      ensures !begun ==> View() == old(View()).(state := Distributing)
    {
      if retailResponseActive {
        state := Distributing;
        return false;
      }
      retailResponseActive := true;
      distributionBatchSize := 0;
      state := Distributing;
      return true;
    }

    method ResumeAfterRetailSell()
      modifies this
      ensures View() == old(View()).(retailResponseActive := false, state := Accumulating)
    {
      retailResponseActive := false;
      state := Accumulating;
    }

    method FinishDrainIfEmpty()
      modifies this`state
      ensures View() == Drained(old(View()))
    {
      var total := TotalTokens();
      if state == ClearAll && pendingBuys == 0 && total == 0 {
        state := Done;
      }
    }

    /** Sells every holding at once; fails when any wallet's sell does. */
    method SellAllFast(sales: seq<Sale>) returns (ok: bool)
      requires |sales| == |tokens|
      modifies this`tokens
      ensures tokens == AfterSweep(old(tokens), sales)
      ensures ok <==> !SweepFails(old(tokens), sales)
    {
      ok := true;
      ghost var before := tokens;
      for w := 0 to |tokens|
        invariant |tokens| == |before|
        invariant forall v :: 0 <= v < w ==> tokens[v] == AfterSweep(before, sales)[v]
        invariant forall v :: w <= v < |before| ==> tokens[v] == before[v]
        invariant ok <==> forall v :: 0 <= v < w ==> !(before[v] != 0 && sales[v].Failed?)
      {
        if tokens[w] != 0 {
          match sales[w] {
            case Failed => ok := false;
            case Sold(after) => tokens := tokens[w := after];
          }
        }
      }
    }

    method ClearAllStepWithQuote(sales: seq<Sale>) returns (ok: bool)
      requires |sales| == |tokens|
      modifies this`tokens, this`state
      ensures View() == ClearedAll(old(View()), sales)
      ensures ok <==> !SweepFails(old(tokens), sales)
    {
      ok := SellAllFast(sales);
      if !ok {
        return;
      }
      FinishDrainIfEmpty();
    }

    method RefreshTokensForExit(refresh: Option<seq<nat>>)
      modifies this`tokens
      ensures View() == Refreshed(old(View()), refresh)
    {
      if refresh.Some? && |refresh.value| == |tokens| {
        tokens := refresh.value;
      }
    }

    method OnRetailBuy(profitable: bool, response: Option<Batch>, draw: nat, sales: seq<Sale>)
      requires |sales| == |tokens| && 0 < draw
      modifies this
      ensures View() == RetailBought(old(View()), profitable, response, draw, sales)
      ensures profitable ==> ExitFrom(old(View()), old(tokens), sales, View())
    {
      InterruptBuys();
      if !profitable && targetMode {
        StartTargetResponse(response);
        return;
      }
      if profitable {
        state := ClearAll;
        retailResponseActive := false;
        SweepIsExit(View(), sales);
        var _ := ClearAllStepWithQuote(sales);
      } else {
        state := Distributing;
        var begun := BeginRetailDistribution();
        if begun {
          StartDistributionRound(draw);
        }
      }
    }

    method OnRetailSell()
      modifies this
      ensures View() == RetailSold(old(View()))
    {
      if retailResponseActive && state == Distributing {
        ResumeAfterRetailSell();
      }
    }

    /** Reacts to an outside trade; a buy is answered by a full exit only when the full-exit
        quote beats a known total cost: net ETH invested, gas and the launch fee. */
    method OnRetail(isBuy: bool, proceeds: int, gasFee: int, launchFee: int, netSpent: int, costBasisKnown: bool,
                    response: Option<Batch>, draw: nat, sales: seq<Sale>)
      requires Enabled(View(),
                       RetailBuy(costBasisKnown && gasFee + launchFee + netSpent < proceeds, response, draw, sales))
      modifies this
      ensures var profitable := costBasisKnown && gasFee + launchFee + netSpent < proceeds;
              && View() == Step(old(View()), if isBuy then RetailBuy(profitable, response, draw, sales) else RetailSell)
              && (isBuy && profitable ==> ExitFrom(old(View()), old(tokens), sales, View()))
    {
      if isBuy {
        var totalCost := TotalCostWei(gasFee, launchFee, netSpent);
        var next := RetailBuyResponse(proceeds, totalCost, costBasisKnown);
        OnRetailBuy(next == ClearAll, response, draw, sales);
      } else {
        OnRetailSell();
      }
    }

    /** The first half of an accumulation tick: with no buy pending and no hold, it goes on to start a round. */
    method CheckAccumulation(paused: bool)
      modifies this`ticking
      ensures View() == AccumulationChecked(old(View()), paused)
    {
      if pendingBuys > 0 {
        return;
      }
      if paused {
        return;
      }
      ticking := true;
    }

    /** The second half, under the round's lock: a running round is left alone. */
    method StartRound()
      modifies this
      ensures View() == RoundStarted(old(View()))
    {
      ticking := false;
      if !round.NoRound? {
        return;
      }
      round := Starting(false);
    }

    method AddPendingBuy(w: nat)
      requires w < |unsettled|
      modifies this`pendingBuys, this`unsettled
      ensures View() == Counted(old(View()), w)
    {
      pendingBuys := pendingBuys + 1;
      unsettled := unsettled[w := unsettled[w] + 1];
    }

    method FinishPendingBuy(w: nat)
      requires w < |unsettled|
      modifies this`pendingBuys, this`unsettled
      ensures View() == old(View()).(
                          pendingBuys := if old(pendingBuys) > 0 then old(pendingBuys) - 1 else 0,
                          unsettled := if old(unsettled[w]) == 0 then old(unsettled)
                                       else old(unsettled)[w := old(unsettled[w]) - 1])
    {
      if pendingBuys > 0 {
        pendingBuys := pendingBuys - 1;
      }
      if unsettled[w] > 0 {
        unsettled := unsettled[w := unsettled[w] - 1];
      }
    }

    /** Sells one wallet's whole balance; an empty wallet sends nothing. */
    method SellWalletFast(w: nat, sale: Sale)
      requires w < |tokens|
      modifies this`tokens
      ensures tokens == AfterSale(old(tokens), w, sale)
    {
      if tokens[w] == 0 {
        return;
      }
      match sale {
        case Failed =>
        case Sold(after) => tokens := tokens[w := after];
      }
    }

    method ApplyBuySettlement(w: nat, failed: bool, read: Option<nat>, sale: Sale, draw: nat)
      requires w < |tokens| == |unsettled| && 0 < draw
      modifies this
      ensures View() == Settled(old(View()), w, failed, read, sale, draw)
    {
      FinishPendingBuy(w);
      if failed {
        FinishDrainIfEmpty();
        return;
      }
      if read.Some? {
        tokens := tokens[w := read.value];
      }
      ReactToBuy(w, sale, draw);
    }

    /** What a confirmed buy sets off: an exit sells it at once, a distribution adds its wallet. */
    method ReactToBuy(w: nat, sale: Sale, draw: nat)
      requires w < |tokens| && 0 < draw
      modifies this
      ensures View() == BuyConfirmed(old(View()), w, sale, draw)
    {
      match state {
        case ClearAll =>
          SellWalletFast(w, sale);
          FinishDrainIfEmpty();
        case Distributing =>
          if retailResponseActive {
            StartDistributionRound(draw);
          }
        case _ =>
      }
    }

    method ApplyDistributionResult()
      modifies this
      ensures View() == ResultApplied(old(View()))
    {
      distributionRoundRunning := false;
      var total := TotalTokens();
      if state == Distributing && pendingBuys == 0 && total == 0 {
        retailResponseActive := false;
        state := Done;
      }
    }

    method ExitAll(refresh: Option<seq<nat>>, sales: seq<Sale>)
      requires |sales| == |tokens|
      modifies this
      ensures View() == ExitRequested(old(View()), refresh, sales)
      ensures ExitFrom(old(View()), Read(old(View()), refresh), sales, View())
      ensures exited <==> SomeUnsold(Read(old(View()), refresh), sales)
    {
      InterruptBuys();
      state := ClearAll;
      RefreshTokensForExit(refresh);
      SweepIsExit(View(), sales);
      var ok := ClearAllStepWithQuote(sales);
      exited := !ok;
    }

    method SellTickFires(refresh: Option<seq<nat>>, sales: seq<Sale>, draw: nat)
      requires |sales| == |tokens| && 0 < draw
      modifies this
      ensures View() == SellTicked(old(View()), refresh, sales, draw)
    {
      match state {
        case Distributing => StartDistributionRound(draw);
        case ClearAll =>
          RefreshTokensForExit(refresh);
          var _ := ClearAllStepWithQuote(sales);
        case _ =>
      }
    }

    /** The funded makers that hold nothing; position 0, the treasury, is no maker. */
    method BuyEligibleMakers(funded: set<nat>) returns (wallets: set<nat>)
      ensures wallets == Eligible(View(), funded)
    {
      wallets := {};
      for w := 1 to if |tokens| == 0 then 1 else |tokens|
        invariant forall v :: v in wallets <==> v in funded && 0 < v < w && v < |tokens| && tokens[v] == 0
      {
        if w in funded && tokens[w] == 0 {
          wallets := wallets + {w};
        }
      }
    }

    /** One turn of the event loop. */
    method HandleLoop(e: Event)
      requires Enabled(View(), e) && InLoop(e)
      modifies this
      ensures View() == Step(old(View()), e)
    {
      match e {
        case RetailBuy(profitable, response, draw, sales) => OnRetailBuy(profitable, response, draw, sales);
        case RetailSell => OnRetailSell();
        case AccumulateTick(paused) => CheckAccumulation(paused);
        case StartRound => StartRound();
        case SellTick(refresh, sales, draw) => SellTickFires(refresh, sales, draw);
        case Settlement(w, failed, read, sale, draw) => ApplyBuySettlement(w, failed, read, sale, draw);
        case BatchResult(b) =>
          batches := batches[..b] + batches[b + 1..];
          ApplyDistributionResult();
        case ExitRequest(refresh, sales) => ExitAll(refresh, sales);
        case Graduated => state := Done;
        case Shutdown =>
          InterruptBuys();
          exited := true;
      }
    }

    /** One action of the round or of a response batch running beside the loop. */
    method HandleBackground(e: Event)
      requires Enabled(View(), e) && !InLoop(e)
      modifies this
      ensures View() == Step(old(View()), e)
    {
      match e {
        case PlanRound(makers) =>
          var left := BuyEligibleMakers(makers);
          round := Buying(round.cancelled, left, {});
        case Broadcast(w) => round := Buying(false, round.left - {w}, round.uncounted + {w});
        case CountBuy(w) =>
          round := round.(uncounted := round.uncounted - {w});
          AddPendingBuy(w);
        case EndRound => round := NoRound;
        case BatchSale(b, w, sale) =>
          batches := batches[b := SellingBatch(batches[b].left - {w})];
          SellWalletFast(w, sale);
        case BatchBroadcast(b, w) =>
          batches := batches[b := BuyingBatch(batches[b].left - {w}, batches[b].uncounted + {w})];
        case BatchCountBuy(b, w) =>
          batches := batches[b := BuyingBatch(batches[b].left, batches[b].uncounted - {w})];
          AddPendingBuy(w);
        case BatchReport(b) => batches := batches[b := Reported];
      }
    }

    /** A whole run under any schedule of loop events and background actions. */
    method Drive(events: seq<Event>)
      modifies this
      ensures View() == Run(old(View()), events)
      ensures Started(old(View())) ==> Bookkept(View())
    {
      ghost var start := View();
      for i := 0 to |events|
        invariant View() == Run(start, events[..i])
      {
        assert events[..i + 1][..i] == events[..i];
        if Enabled(View(), events[i]) {
          if InLoop(events[i]) {
            HandleLoop(events[i]);
          } else {
            HandleBackground(events[i]);
          }
        }
      }
      assert events[..|events|] == events;
      if Started(start) {
        AlwaysBookkept(start, events);
      }
    }
  }
}
