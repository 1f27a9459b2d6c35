/** What each step of the market maker does to balances, mode and batches, wallet by wallet:
    an exit sells everything that sells, a response sells the first holders, and nothing else sells. */
module EngineEffects {
  import opened FloorMath
  import opened Decide
  import opened Optional
  import opened EngineSteps
  import opened EngineSafety
  import opened EngineBuys
  import opened Distribution

  // ---------------------------------------------------------------------
  // Exits
  // ---------------------------------------------------------------------

  /** Every wallet that held tokens and sold them has what its sell left; every other one keeps its balance. */
  ghost predicate AllSold(before: seq<nat>, sales: seq<Sale>, after: seq<nat>) {
    && |before| == |sales| == |after|
    && forall w :: 0 <= w < |before| ==>
         after[w] == match sales[w] case Failed => before[w] case Sold(left) => if before[w] > 0 then left else 0
  }

  /** Some wallet's sell was not confirmed. */
  ghost predicate SomeUnsold(before: seq<nat>, sales: seq<Sale>) {
    exists w :: 0 <= w < |before| && w < |sales| && before[w] > 0 && sales[w] == Failed
  }

  ghost predicate NothingHeld(tokens: seq<nat>) {
    forall w :: 0 <= w < |tokens| ==> tokens[w] == 0
  }

  lemma NothingHeldIsZero(tokens: seq<nat>)
    ensures NothingHeld(tokens) <==> Sum(tokens) == 0
  {
    SumNonNegative(tokens);
    HoldersInOrder(tokens);
    HoldersEmpty(tokens);
  }

  /** What an exit does to a state: its sweep, and the end of the strategy exactly when nothing is left anywhere. */
  ghost predicate ExitFrom(s: EngineState, tokens: seq<nat>, sales: seq<Sale>, t: EngineState) {
    && AllSold(tokens, sales, t.tokens)
    && t.state == (if !SomeUnsold(tokens, sales) && s.pendingBuys == 0 && NothingHeld(t.tokens) then Done else ClearAll)
    && t.pendingBuys == s.pendingBuys && t.unsettled == s.unsettled
    && t.batches == s.batches && t.distributionRoundRunning == s.distributionRoundRunning
  }

  lemma SweepIsExit(s: EngineState, sales: seq<Sale>)
    requires s.state == ClearAll && |sales| == |s.tokens|
    ensures ExitFrom(s, s.tokens, sales, ClearedAll(s, sales))
  {
    var t := ClearedAll(s, sales);
    NothingHeldIsZero(AfterSweep(s.tokens, sales));
    assert SweepFails(s.tokens, sales) <==> SomeUnsold(s.tokens, sales);
  }

  /** A retail buy that pays for leaving sells every wallet at once; the strategy is done exactly when every
      sell was confirmed, nothing is held and no buy is pending, and goes on exiting otherwise. */
  lemma ProfitableBuyExits(s: EngineState, e: Event)
    requires Enabled(s, e) && e.RetailBuy? && e.profitable
    ensures ExitFrom(s, s.tokens, e.sales, Step(s, e)) && !Step(s, e).retailResponseActive
    ensures Step(s, e).exited == s.exited
  {
    var u := Interrupted(s).(state := ClearAll, retailResponseActive := false);
    SweepIsExit(u, e.sales);
  }

  /** The balances an exit or its tick works on: those read afresh, when the read answered. */
  function Read(s: EngineState, refresh: Option<seq<nat>>): seq<nat> {
    if refresh.Some? && |refresh.value| == |s.tokens| then refresh.value else s.tokens
  }

  /** A one-click exit does the same off freshly read balances; a failed sell ends the loop. */
  lemma RequestedExitSells(s: EngineState, e: Event)
    requires Enabled(s, e) && e.ExitRequest?
    ensures ExitFrom(s, Read(s, e.refresh), e.sales, Step(s, e))
    ensures Step(s, e).exited <==> SomeUnsold(Read(s, e.refresh), e.sales)
  {
    var u := Refreshed(Interrupted(s).(state := ClearAll), e.refresh);
    SweepIsExit(u, e.sales);
  }

  /** So does every tick of an exit that is not done. */
  lemma ExitTickSells(s: EngineState, e: Event)
    requires Enabled(s, e) && e.SellTick? && s.state == ClearAll
    ensures ExitFrom(s, Read(s, e.refresh), e.sales, Step(s, e)) && Step(s, e).exited == s.exited
  {
    SweepIsExit(Refreshed(s, e.refresh), e.sales);
  }

  /** An exit is given up only for a retail buy that does not pay for leaving, in distribute mode. */
  lemma ExitIsGivenUpIff(s: EngineState, e: Event)
    requires Enabled(s, e) && s.state == ClearAll
    ensures Step(s, e).state !in {ClearAll, Done} <==>
            && e.RetailBuy? && !e.profitable && !s.targetMode
            && (s.retailResponseActive || s.distributionRoundRunning || s.pendingBuys != 0 || !NothingHeld(s.tokens))
  {
    match e {
      case RetailBuy(profitable, _, _, _) =>
        if profitable {
          ProfitableBuyExits(s, e);
        } else if s.targetMode {
          UnprofitableBuyTargets(s, e);
        } else {
          UnprofitableBuyDistributes(s, e);
        }
      case ExitRequest(_, _) => RequestedExitSells(s, e);
      case SellTick(_, _, _) => ExitTickSells(s, e);
      case Settlement(_, _, _, _, _) => SettlementReacts(s, e);
      case _ =>
    }
  }

  /** Whatever else happens meanwhile, an exit goes on until it is done. */
  lemma {:induction false} ExitGoesOn(s: EngineState, events: seq<Event>)
    requires s.state in {ClearAll, Done}
    requires s.targetMode || forall k :: 0 <= k < |events| ==> !(events[k].RetailBuy? && !events[k].profitable)
    ensures Run(s, events).state in {ClearAll, Done} && Run(s, events).targetMode == s.targetMode
  {
    if events != [] {
      var n := |events| - 1;
      ExitGoesOn(s, events[..n]);
      StepKeepsExit(Run(s, events[..n]), events[n]);
    }
  }

  lemma StepKeepsExit(s: EngineState, e: Event)
    requires s.state in {ClearAll, Done} && (s.targetMode || !(e.RetailBuy? && !e.profitable))
    ensures Step(s, e).state in {ClearAll, Done} && Step(s, e).targetMode == s.targetMode
  {
    if Enabled(s, e) && s.state == ClearAll {
      ExitIsGivenUpIff(s, e);
    }
    StepKeepsMode(s, e);
  }

  lemma StepKeepsMode(s: EngineState, e: Event)
    ensures Step(s, e).targetMode == s.targetMode && |Step(s, e).tokens| == |s.tokens|
  {
    if Enabled(s, e) && e.Settlement? {
      SettledKept(s, e.w, e.failed, e.read, e.sale, e.draw);
    } else if Enabled(s, e) && InLoop(e) && !e.StartRound? && !e.BatchResult? {
      HandlerKept(s, e);
    }
  }

  // ---------------------------------------------------------------------
  // Responses that do not exit
  // ---------------------------------------------------------------------

  /** These wallets are the first k that hold tokens. */
  ghost predicate FirstHolding(tokens: seq<nat>, k: nat, wallets: set<nat>) {
    && (forall w :: w in wallets ==> w < |tokens| && tokens[w] > 0)
    && |wallets| <= k
    && (|wallets| < k ==> forall w :: 0 <= w < |tokens| && tokens[w] > 0 ==> w in wallets)
    && (forall v, w :: 0 <= v < w && w in wallets && v < |tokens| && tokens[v] > 0 ==> v in wallets)
  }

  lemma {:induction false} HoldersComplete(tokens: seq<nat>, w: nat)
    requires w < |tokens| && tokens[w] > 0
    ensures w in Holders(tokens)
  {
    var n := |tokens| - 1;
    if w < n {
      HoldersComplete(tokens[..n], w);
    }
  }

  lemma {:induction false} CountOfDistinct(ws: seq<nat>)
    requires forall i, j :: 0 <= i < j < |ws| ==> ws[i] < ws[j]
    ensures |Elements(ws)| == |ws|
  {
    if ws != [] {
      var n := |ws| - 1;
      CountOfDistinct(ws[..n]);
      assert ws == ws[..n] + [ws[n]];
      assert Elements(ws) == Elements(ws[..n]) + {ws[n]};
      assert ws[n] !in ws[..n];
    }
  }

  lemma EarlierIsSmaller(ws: seq<nat>, i: nat, j: nat)
    requires forall k, l :: 0 <= k < l < |ws| ==> ws[k] < ws[l]
    requires i < |ws| && j < |ws| && ws[i] < ws[j]
    ensures i < j
  {
  }

  lemma FirstOfHolders(tokens: seq<nat>, k: nat)
    ensures FirstHolding(tokens, k, Elements(Holders(tokens)[..Min(k, |Holders(tokens)|)]))
  {
    var held := Holders(tokens);
    var ws := held[..Min(k, |held|)];
    HoldersInOrder(tokens);
    CountOfDistinct(ws);
    forall w | 0 <= w < |tokens| && tokens[w] > 0
      ensures w in held
    {
      HoldersComplete(tokens, w);
    }
    forall v, w | 0 <= v < w && w in Elements(ws) && v < |tokens| && tokens[v] > 0
      ensures v in Elements(ws)
    {
      var i :| 0 <= i < |held| && held[i] == v;
      var j :| 0 <= j < |ws| && ws[j] == w;
      EarlierIsSmaller(held, i, j);
      assert ws[i] == v;
    }
  }

  /** What a distribution step does: nothing while a batch is out, the end when nothing is held or pending,
      and otherwise a batch of the first holders, its size drawn with the first one of a response. */
  ghost predicate DistributesFrom(s: EngineState, draw: nat, t: EngineState) {
    && t.tokens == s.tokens && t.pendingBuys == s.pendingBuys && t.unsettled == s.unsettled
    && if s.distributionRoundRunning then
         && t.state == s.state && t.batches == s.batches && t.distributionRoundRunning
         && t.distributionBatchSize == s.distributionBatchSize && t.retailResponseActive == s.retailResponseActive
       else if NothingHeld(s.tokens) then
         && t.state == (if s.pendingBuys == 0 then Done else s.state)
         && t.batches == s.batches && !t.distributionRoundRunning
         && t.distributionBatchSize == s.distributionBatchSize
         && t.retailResponseActive == (s.retailResponseActive && s.pendingBuys != 0)
       else
         && t.state == s.state && t.distributionRoundRunning && t.retailResponseActive == s.retailResponseActive
         && t.distributionBatchSize == (if s.distributionBatchSize == 0 then draw else s.distributionBatchSize)
         && |t.batches| == |s.batches| + 1 && t.batches[..|s.batches|] == s.batches
         && t.batches[|s.batches|].SellingBatch?
         && FirstHolding(s.tokens, t.distributionBatchSize, t.batches[|s.batches|].left)
  }

  lemma DistributionIsStep(s: EngineState, draw: nat)
    ensures DistributesFrom(s, draw, DistributionStarted(s, draw)) && DistributionStarted(s, draw).round == s.round
    ensures DistributionStarted(s, draw).exited == s.exited && DistributionStarted(s, draw).ticking == s.ticking
  {
    NothingHeldIsZero(s.tokens);
    HoldersEmpty(s.tokens);
    FirstOfHolders(s.tokens, BatchSize(s, draw));
  }

  /** A retail buy that does not pay for leaving opens a response of batches, or joins the one that is open. */
  lemma UnprofitableBuyDistributes(s: EngineState, e: Event)
    requires Enabled(s, e) && e.RetailBuy? && !e.profitable && !s.targetMode
    ensures var t := Step(s, e);
            && (s.retailResponseActive ==>
                  t.state == Distributing && t.tokens == s.tokens && t.batches == s.batches && t.retailResponseActive)
            && (!s.retailResponseActive ==>
                  DistributesFrom(s.(state := Distributing, retailResponseActive := true, distributionBatchSize := 0),
                                  e.draw, t))
  {
    var u := Interrupted(s).(state := Distributing, retailResponseActive := true, distributionBatchSize := 0);
    DistributionIsStep(u, e.draw);
  }

  /** In target mode it sends the planned response, if any, unless one is out, and changes neither mode nor balances. */
  lemma UnprofitableBuyTargets(s: EngineState, e: Event)
    requires Enabled(s, e) && e.RetailBuy? && !e.profitable && s.targetMode
    ensures var t := Step(s, e);
            && t.state == s.state && t.tokens == s.tokens && t.retailResponseActive == s.retailResponseActive
            && t.batches
               == s.batches + (if s.distributionRoundRunning || e.response.None? then [] else [e.response.value])
            && (t.distributionRoundRunning <==> s.distributionRoundRunning || e.response.Some?)
  {
  }

  /** A tick of the sell timer distributes while distributing, and outside an exit does nothing else. */
  lemma SellTickDistributes(s: EngineState, e: Event)
    requires Enabled(s, e) && e.SellTick? && s.state != ClearAll
    ensures if s.state == Distributing then DistributesFrom(s, e.draw, Step(s, e)) else Step(s, e) == s
  {
    DistributionIsStep(s, e.draw);
  }

  /** An outside sell closes an open distribution and returns to accumulating; otherwise it changes nothing. */
  lemma RetailSellResumes(s: EngineState, e: Event)
    requires Enabled(s, e) && e.RetailSell?
    ensures var t := Step(s, e);
            && (s.retailResponseActive && s.state == Distributing ==>
                  t.state == Accumulating && !t.retailResponseActive)
            && (!(s.retailResponseActive && s.state == Distributing) ==> t == s)
            && t == s.(state := t.state, retailResponseActive := t.retailResponseActive)
  {
  }

  // ---------------------------------------------------------------------
  // Settlements and batches
  // ---------------------------------------------------------------------

  /** A wallet's balance after its sell: what the sell left, when it held anything and the sell was confirmed. */
  function Left(balance: nat, sale: Sale): nat {
    match sale case Failed => balance case Sold(left) => if balance > 0 then left else balance
  }

  /** A settled buy is counted off and its balance read. An exit then sells that wallet too and ends when nothing is
      left; a distribution goes on with it; accumulation leaves it alone. */
  lemma SettlementReacts(s: EngineState, e: Event)
    requires Enabled(s, e) && e.Settlement?
    ensures var t, w := Step(s, e), e.w;
            var held := if e.read.Some? && !e.failed then e.read.value else s.tokens[w];
            var pending := if s.pendingBuys > 0 then s.pendingBuys - 1 else 0;
            && t.pendingBuys == pending && t.unsettled == s.unsettled[w := s.unsettled[w] - 1]
            && t.tokens == s.tokens[w := if s.state == ClearAll && !e.failed then Left(held, e.sale) else held]
            && (s.state == ClearAll ==>
                  t.batches == s.batches
                  && t.state == if pending == 0 && NothingHeld(t.tokens) then Done else ClearAll)
            && (s.state == Distributing && s.retailResponseActive && !e.failed ==>
                  DistributesFrom(s.(pendingBuys := pending, unsettled := t.unsettled, tokens := t.tokens), e.draw, t))
            && (s.state != ClearAll && (s.state != Distributing || !s.retailResponseActive || e.failed) ==>
                  t.state == s.state && t.batches == s.batches)
  {
    var w := e.w;
    if e.failed {
      assert s.tokens[w := s.tokens[w]] == s.tokens;
      DrainEnds(CountedOff(s, w));
    } else {
      var v := CountedOff(s, w).(tokens := s.tokens[w := if e.read.Some? then e.read.value else s.tokens[w]]);
      ReadSettlement(s, e, v);
      ConfirmedReacts(v, w, e.sale, e.draw);
    }
  }

  lemma DrainEnds(s: EngineState)
    ensures Drained(s) == s.(state := Drained(s).state)
    ensures Drained(s).state
            == if s.state == ClearAll && s.pendingBuys == 0 && NothingHeld(s.tokens) then Done else s.state
  {
    NothingHeldIsZero(s.tokens);
  }

  lemma ReadSettlement(s: EngineState, e: Event, v: EngineState)
    requires Enabled(s, e) && e.Settlement? && !e.failed
    requires v == CountedOff(s, e.w).(tokens := s.tokens[e.w := if e.read.Some? then e.read.value else s.tokens[e.w]])
    ensures Step(s, e) == BuyConfirmed(v, e.w, e.sale, e.draw)
  {
    assert s.tokens[e.w := s.tokens[e.w]] == s.tokens;
  }

  lemma ConfirmedReacts(v: EngineState, w: nat, sale: Sale, draw: nat)
    requires w < |v.tokens|
    ensures var t := BuyConfirmed(v, w, sale, draw);
            && t.pendingBuys == v.pendingBuys && t.unsettled == v.unsettled
            && t.tokens == v.tokens[w := if v.state == ClearAll then Left(v.tokens[w], sale) else v.tokens[w]]
            && (v.state == ClearAll ==>
                  t.batches == v.batches
                  && t.state == if v.pendingBuys == 0 && NothingHeld(t.tokens) then Done else ClearAll)
            && (v.state == Distributing && v.retailResponseActive ==> DistributesFrom(v, draw, t))
            && (v.state != ClearAll && !(v.state == Distributing && v.retailResponseActive) ==> t == v)
  {
    assert v.tokens[w := v.tokens[w]] == v.tokens;
    if v.state == ClearAll {
      DrainEnds(v.(tokens := AfterSale(v.tokens, w, sale)));
    } else if v.state == Distributing {
      DistributionIsStep(v, draw);
    }
  }

  /** A sell of a batch changes its own wallet's balance, as the sell left it, and no other. */
  lemma BatchSaleSells(s: EngineState, e: Event)
    requires Enabled(s, e) && e.BatchSale?
    ensures var t := Step(s, e);
            && t.tokens == s.tokens[e.w := Left(s.tokens[e.w], e.sale)] && t.state == s.state
            && t.batches == s.batches[e.b := SellingBatch(s.batches[e.b].left - {e.w})]
  {
    assert s.tokens[e.w := s.tokens[e.w]] == s.tokens;
  }

  /** A batch's result frees the guard, and ends a distribution with nothing held or pending. */
  lemma ResultFreesGuard(s: EngineState, e: Event)
    requires Enabled(s, e) && e.BatchResult?
    ensures var t := Step(s, e);
            && !t.distributionRoundRunning && t.tokens == s.tokens
            && t.batches == s.batches[..e.b] + s.batches[e.b + 1..]
            && t.state
               == if s.state == Distributing && s.pendingBuys == 0 && NothingHeld(s.tokens) then Done else s.state
  {
    NothingHeldIsZero(s.tokens);
  }

  /** Balances change only by sells, by the reads of settlements, and by the reads of exits. */
  lemma OnlySellsMoveBalances(s: EngineState, e: Event)
    requires Enabled(s, e) && Step(s, e).tokens != s.tokens
    ensures e.BatchSale? || e.Settlement? || e.ExitRequest? || (e.RetailBuy? && e.profitable)
            || (e.SellTick? && s.state == ClearAll)
  {
    if e.RetailBuy? && !e.profitable {
      if s.targetMode {
        UnprofitableBuyTargets(s, e);
      } else {
        UnprofitableBuyDistributes(s, e);
      }
    } else if e.SellTick? && s.state != ClearAll {
      SellTickDistributes(s, e);
    }
  }

  // ---------------------------------------------------------------------
  // Accumulation
  // ---------------------------------------------------------------------

  /** A tick goes on to a round exactly with no buy pending and no hold; the round starts exactly when none is running,
      and once planned it may buy exactly from the funded makers, never the treasury, whose cache shows nothing. */
  lemma RoundBuysFromFlatMakers(s: EngineState, e: Event, makers: set<nat>, w: nat)
    requires Enabled(s, e)
    ensures e.AccumulateTick? ==>
              Step(s, e) == s.(ticking := s.pendingBuys == 0 && !e.paused)
    ensures e.StartRound? ==>
              Step(s, e) == s.(ticking := false, round := if s.round == NoRound then Starting(false) else s.round)
    ensures e == PlanRound(makers) ==>
              var t := Step(s, e);
              && t.round.Buying? && t.round.cancelled == s.round.cancelled && t.round.uncounted == {}
              && (w in t.round.left <==> w in makers && 0 < w < |s.tokens| && s.tokens[w] == 0)
  {
  }

  /** Graduation and shutdown end the loop and sell nothing. */
  lemma LoopEnds(s: EngineState, e: Event)
    requires Enabled(s, e)
    ensures e.Graduated? ==> Step(s, e) == s.(state := Done)
    ensures e.Shutdown? ==> Step(s, e) == s.(exited := true, round := Step(s, e).round)
  {
  }

  /** Once the strategy is done, or its loop has left, only what was already under way beside it goes on:
      no mode changes, no new batch is sent, and balances move only by the sells of batches already out. */
  lemma {:induction false} NothingStartsAfterEnd(s: EngineState, events: seq<Event>)
    requires s.state == Done || s.exited
    ensures var t := Run(s, events);
            && t.state == s.state && t.exited == s.exited && |t.batches| == |s.batches|
            && t.retailResponseActive == s.retailResponseActive
            && ((forall k :: 0 <= k < |events| ==> !events[k].BatchSale?) ==> t.tokens == s.tokens)
  {
    if events != [] {
      var n := |events| - 1;
      NothingStartsAfterEnd(s, events[..n]);
      BesideEndedLoop(Run(s, events[..n]), events[n]);
    }
  }

  lemma BesideEndedLoop(s: EngineState, e: Event)
    requires s.state == Done || s.exited
    ensures InLoop(e) ==> Step(s, e) == s
    ensures var t := Step(s, e);
            && t.state == s.state && t.exited == s.exited && |t.batches| == |s.batches|
            && t.retailResponseActive == s.retailResponseActive && (!e.BatchSale? ==> t.tokens == s.tokens)
  {
  }

  /** Every retail buy, exit and shutdown cancels what the round has not sent, and nothing else does. */
  lemma OnlyThoseCancel(s: EngineState, e: Event)
    requires Enabled(s, e) && !s.round.NoRound? && !s.round.cancelled
    ensures !Step(s, e).round.NoRound? ==>
              (Step(s, e).round.cancelled <==> e.RetailBuy? || e.ExitRequest? || e.Shutdown?)
    ensures Step(s, e).round.NoRound? ==> e.EndRound?
  {
    match e {
      case RetailBuy(profitable, response, draw, sales) => RetailBoughtKept(s, profitable, response, draw, sales);
      case ExitRequest(refresh, sales) => ExitRequestedKept(s, refresh, sales);
      case SellTick(refresh, sales, draw) => SellTickedKept(s, refresh, sales, draw);
      case Settlement(w, failed, read, sale, draw) => SettledKept(s, w, failed, read, sale, draw);
      case _ =>
    }
  }
}
