/** What every run of the market maker keeps in its books, and when it ends. */
module EngineSafety {
  import opened FloorMath
  import opened Decide
  import opened Optional
  import opened EngineSteps

  // ---------------------------------------------------------------------
  // The bookkeeping invariant
  // ---------------------------------------------------------------------

  /** pendingBuys counts the buys not yet settled, the round guard mirrors the one
      outstanding batch, and the retail flag agrees with the mode. */
  ghost predicate Bookkept(s: EngineState) {
    && |s.unsettled| == |s.tokens|
    && s.pendingBuys == Sum(s.unsettled)
    && |s.batches| == (if s.distributionRoundRunning then 1 else 0)
    && (s.state == Distributing ==> s.retailResponseActive)
    && (s.state == Accumulating ==> !s.retailResponseActive)
  }

  lemma SumUpdate(s: seq<nat>, i: nat, v: nat)
    requires i < |s|
    ensures Sum(s[i := v]) == Sum(s) - s[i] + v
  {
    SumWithout(s, i);
    SumWithout(s[i := v], i);
    assert s[i := v][..i] + s[i := v][i + 1..] == s[..i] + s[i + 1..];
  }

  /** The books are kept, and a finished strategy has nothing pending and nothing cached. */
  ghost predicate Sound(s: EngineState) {
    Bookkept(s) && (s.state == Done ==> s.pendingBuys == 0 && Sum(s.tokens) == 0)
  }

  lemma DrainedSound(s: EngineState)
    requires Sound(s)
    ensures Sound(Drained(s))
  {
  }

  lemma ClearedAllSound(s: EngineState, sales: seq<Sale>)
    requires Bookkept(s) && s.state == ClearAll && |sales| == |s.tokens|
    ensures Sound(ClearedAll(s, sales))
  {
    DrainedSound(s.(tokens := AfterSweep(s.tokens, sales)));
  }

  lemma DistributionSound(s: EngineState, draw: nat)
    requires Bookkept(s) && s.state == Distributing
    ensures Sound(DistributionStarted(s, draw))
  {
  }

  lemma RetailBoughtSound(s: EngineState, profitable: bool, response: Option<Batch>, draw: nat, sales: seq<Sale>)
    requires Sound(s) && |sales| == |s.tokens|
    ensures Sound(RetailBought(s, profitable, response, draw, sales))
  {
    var t := Interrupted(s);
    if profitable {
      ClearedAllSound(t.(state := ClearAll, retailResponseActive := false), sales);
    } else if !s.targetMode && !s.retailResponseActive {
      DistributionSound(t.(state := Distributing, retailResponseActive := true, distributionBatchSize := 0), draw);
    }
  }

  lemma SellTickedSound(s: EngineState, refresh: Option<seq<nat>>, sales: seq<Sale>, draw: nat)
    requires Sound(s) && |sales| == |s.tokens|
    ensures Sound(SellTicked(s, refresh, sales, draw))
  {
    match s.state {
      case Distributing => DistributionSound(s, draw);
      case ClearAll => ClearedAllSound(Refreshed(s, refresh), sales);
      case _ =>
    }
  }

  lemma ExitRequestedSound(s: EngineState, refresh: Option<seq<nat>>, sales: seq<Sale>)
    requires Sound(s) && |sales| == |s.tokens|
    ensures Sound(ExitRequested(s, refresh, sales))
  {
    var t := Refreshed(Interrupted(s).(state := ClearAll), refresh);
    ClearedAllSound(t, sales);
  }

  /** The books after a settlement is counted off, before the handler acts on it. */
  function CountedOff(s: EngineState, w: nat): EngineState
    requires w < |s.unsettled| && 0 < s.unsettled[w]
  {
    s.(pendingBuys := if s.pendingBuys > 0 then s.pendingBuys - 1 else s.pendingBuys,
       unsettled := s.unsettled[w := s.unsettled[w] - 1])
  }

  /** A settlement always finds its buy counted, so the counter's clamp at zero never acts. */
  lemma ClampNeverFires(s: EngineState, w: nat)
    requires Bookkept(s) && w < |s.unsettled| && 0 < s.unsettled[w]
    ensures 0 < s.pendingBuys && Bookkept(CountedOff(s, w)) && CountedOff(s, w).pendingBuys == s.pendingBuys - 1
  {
    SumNonNegative(s.unsettled);
    SumUpdate(s.unsettled, w, s.unsettled[w] - 1);
  }

  lemma SettledSound(s: EngineState, w: nat, failed: bool, read: Option<nat>, sale: Sale, draw: nat)
    requires Bookkept(s) && s.state != Done && w < |s.tokens| && 0 < s.unsettled[w]
    ensures Sound(Settled(s, w, failed, read, sale, draw))
  {
    var t := CountedOff(s, w);
    ClampNeverFires(s, w);
    if failed {
      DrainedSound(t);
    } else {
      var u := t.(tokens := if read.Some? then t.tokens[w := read.value] else t.tokens);
      if u.state == ClearAll {
        DrainedSound(u.(tokens := AfterSale(u.tokens, w, sale)));
      } else if u.state == Distributing {
        DistributionSound(u, draw);
      }
    }
  }

  lemma CountedBookkept(s: EngineState, w: nat)
    requires Bookkept(s) && w < |s.tokens|
    ensures Bookkept(Counted(s, w))
  {
    SumUpdate(s.unsettled, w, s.unsettled[w] + 1);
  }

  /** Every step of the event loop keeps the books and finishes only on an empty strategy, graduation aside. */
  lemma LoopStepSound(s: EngineState, e: Event)
    requires Bookkept(s) && Enabled(s, e) && InLoop(e) && !e.Graduated?
    ensures Sound(Step(s, e))
  {
    match e {
      case RetailBuy(profitable, response, draw, sales) => RetailBoughtSound(s, profitable, response, draw, sales);
      case RetailSell =>
      case AccumulateTick(_) =>
      case StartRound =>
      case SellTick(refresh, sales, draw) => SellTickedSound(s, refresh, sales, draw);
      case Settlement(w, failed, read, sale, draw) => SettledSound(s, w, failed, read, sale, draw);
      case BatchResult(_) =>
      case ExitRequest(refresh, sales) => ExitRequestedSound(s, refresh, sales);
      case Shutdown =>
    }
  }

  /** Every step of a background goroutine keeps the books and the mode. */
  lemma BackgroundStepBookkept(s: EngineState, e: Event)
    requires Bookkept(s) && Enabled(s, e) && !InLoop(e)
    ensures Bookkept(Step(s, e)) && Step(s, e).state == s.state
  {
    match e {
      case CountBuy(w) => CountedBookkept(s.(round := s.round.(uncounted := s.round.uncounted - {w})), w);
      case BatchCountBuy(b, w) =>
        CountedBookkept(s.(batches := s.batches[b := BuyingBatch(s.batches[b].left, s.batches[b].uncounted - {w})]), w);
      case _ =>
    }
  }

  lemma StepBookkept(s: EngineState, e: Event)
    requires Bookkept(s)
    ensures Bookkept(Step(s, e))
  {
    if Enabled(s, e) {
      if !InLoop(e) {
        BackgroundStepBookkept(s, e);
      } else if !e.Graduated? {
        LoopStepSound(s, e);
      }
    }
  }

  /** No buy is pending for any wallet and no wallet's cache shows a token. */
  ghost predicate Empty(s: EngineState) {
    && s.pendingBuys == 0 && |s.unsettled| == |s.tokens|
    && forall w :: 0 <= w < |s.tokens| ==> s.tokens[w] == 0 && s.unsettled[w] == 0
  }

  lemma SoundDoneIsEmpty(s: EngineState)
    requires Sound(s) && s.state == Done
    ensures Empty(s)
  {
    SumNonNegative(s.tokens);
    SumNonNegative(s.unsettled);
  }

  /** Done is entered, except by graduation, only with nothing pending and nothing cached. */
  lemma DoneOnlyWhenEmpty(s: EngineState, e: Event, t: EngineState)
    requires Bookkept(s) && t == Step(s, e) && s.state != Done && t.state == Done && !e.Graduated?
    ensures Empty(t)
  {
    if Enabled(s, e) && InLoop(e) {
      LoopStepSound(s, e);
      SoundDoneIsEmpty(t);
    } else if Enabled(s, e) {
      BackgroundStepBookkept(s, e);
    }
  }

  /** A strategy that has just been launched or bound: buys of the launch burst may be pending. */
  ghost predicate Started(s: EngineState) {
    && |s.unsettled| == |s.tokens| && s.pendingBuys == Sum(s.unsettled)
    && (forall w :: 0 <= w < |s.unsettled| ==> s.unsettled[w] <= 1)
    && s.state == Accumulating && !s.retailResponseActive
    && !s.distributionRoundRunning && s.batches == [] && s.distributionBatchSize == 0
    && s.round == NoRound && !s.ticking && !s.exited
  }

  /** The books hold in every state of every run. */
  lemma {:induction false} AlwaysBookkept(s: EngineState, events: seq<Event>)
    requires Started(s)
    ensures Bookkept(Run(s, events))
  {
    if events != [] {
      var n := |events| - 1;
      AlwaysBookkept(s, events[..n]);
      StepBookkept(Run(s, events[..n]), events[n]);
    }
  }
}
