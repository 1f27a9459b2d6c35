/** The buys of every wallet over a run: none is lost in any mode, and in distribute mode
    no wallet has two open, as long as no round starts over a pending buy. */
module EngineBuys {
  import opened FloorMath
  import opened Decide
  import opened Optional
  import opened EngineSteps
  import opened EngineSafety

  // ---------------------------------------------------------------------
  // Open buys
  // ---------------------------------------------------------------------

  /** Buys of the wallet that the round has broadcast and not counted yet. */
  function InRound(round: Round, w: nat): nat {
    if round.Buying? && w in round.uncounted then 1 else 0
  }

  /** Buys of the wallet that a response batch has broadcast and not counted yet. */
  function InBatch(batch: Batch, w: nat): nat {
    if batch.BuyingBatch? && w in batch.uncounted then 1 else 0
  }

  function InBatches(batches: seq<Batch>, w: nat): nat {
    if batches == [] then 0 else InBatch(batches[0], w) + InBatches(batches[1..], w)
  }

  /** Buys of the wallet that are broadcast but not counted yet, by the round or by a batch. */
  function Uncounted(s: EngineState, w: nat): nat {
    InRound(s.round, w) + InBatches(s.batches, w)
  }

  /** Buys of a wallet that were broadcast and are not settled yet. */
  function Open(s: EngineState, w: nat): nat
    requires w < |s.unsettled|
  {
    s.unsettled[w] + Uncounted(s, w)
  }

  lemma {:induction false} InBatchesSplit(batches: seq<Batch>, b: nat, w: nat)
    requires b < |batches|
    ensures InBatches(batches, w) == InBatches(batches[..b] + batches[b + 1..], w) + InBatch(batches[b], w)
  {
    if b == 0 {
      assert batches[..0] + batches[1..] == batches[1..];
    } else {
      InBatchesSplit(batches[1..], b - 1, w);
      var rest := batches[..b] + batches[b + 1..];
      assert rest[0] == batches[0] && rest[1..] == batches[1..][..b - 1] + batches[1..][b..];
    }
  }

  /** Replacing one batch changes only what that batch has sent. */
  lemma InBatchesUpdate(batches: seq<Batch>, b: nat, x: Batch, w: nat)
    requires b < |batches|
    ensures InBatches(batches[b := x], w) == InBatches(batches, w) - InBatch(batches[b], w) + InBatch(x, w)
  {
    InBatchesSplit(batches, b, w);
    InBatchesSplit(batches[b := x], b, w);
    assert batches[b := x][..b] + batches[b := x][b + 1..] == batches[..b] + batches[b + 1..];
  }

  lemma InBatchesSnoc(batches: seq<Batch>, x: Batch, w: nat)
    ensures InBatches(batches + [x], w) == InBatches(batches, w) + InBatch(x, w)
  {
    InBatchesSplit(batches + [x], |batches|, w);
    assert (batches + [x])[..|batches|] + (batches + [x])[|batches| + 1..] == batches;
  }

  predicate BatchApart(batch: Batch) {
    batch.BuyingBatch? ==> batch.left !! batch.uncounted
  }

  /** No wallet is still to buy and already sent in one round or batch. */
  ghost predicate Apart(s: EngineState) {
    && |s.unsettled| == |s.tokens|
    && (s.round.Buying? ==> s.round.left !! s.round.uncounted)
    && forall b :: 0 <= b < |s.batches| ==> BatchApart(s.batches[b])
  }

  // ---------------------------------------------------------------------
  // What a step does to the open buys
  // ---------------------------------------------------------------------

  /** The round is the same, or cancelled; at most a batch that has sent nothing is new. */
  predicate BuysKept(s: EngineState, t: EngineState) {
    && t.unsettled == s.unsettled && |t.tokens| == |s.tokens| && t.targetMode == s.targetMode
    && (t.round == s.round || t.round == Cancelled(s.round))
    && (t.batches == s.batches
        || (|t.batches| == |s.batches| + 1 && t.batches[..|s.batches|] == s.batches
            && (t.batches[|s.batches|].BuyingBatch? ==>
                  s.targetMode && t.batches[|s.batches|].uncounted == {})))
  }

  lemma KeptApart(s: EngineState, t: EngineState)
    requires Apart(s) && BuysKept(s, t)
    ensures Apart(t)
  {
    forall b | 0 <= b < |t.batches|
      ensures BatchApart(t.batches[b])
    {
      if b < |s.batches| {
        assert t.batches[..|s.batches|][b] == s.batches[b];
      }
    }
  }

  lemma KeptOpen(s: EngineState, t: EngineState, w: nat)
    requires BuysKept(s, t) && w < |s.unsettled|
    ensures Open(t, w) == Open(s, w) && Uncounted(t, w) == Uncounted(s, w)
  {
    if t.batches != s.batches {
      var x := t.batches[|s.batches|];
      assert t.batches == s.batches + [x];
      InBatchesSnoc(s.batches, x, w);
    }
  }

  lemma DistributionKept(s: EngineState, draw: nat)
    ensures BuysKept(s, DistributionStarted(s, draw))
    ensures DistributionStarted(s, draw).round == s.round
  {
  }

  lemma SweepKept(s: EngineState, sales: seq<Sale>)
    requires |sales| == |s.tokens|
    ensures var t := ClearedAll(s, sales);
            && t.unsettled == s.unsettled && |t.tokens| == |s.tokens| && t.targetMode == s.targetMode
            && t.round == s.round && t.batches == s.batches
  {
  }

  lemma RetailBoughtKept(s: EngineState, profitable: bool, response: Option<Batch>, draw: nat, sales: seq<Sale>)
    requires |sales| == |s.tokens| && Fresh(response, |s.tokens|)
    ensures BuysKept(s, RetailBought(s, profitable, response, draw, sales))
    ensures RetailBought(s, profitable, response, draw, sales).round == Cancelled(s.round)
  {
    var t := Interrupted(s);
    if profitable {
      SweepKept(t.(state := ClearAll, retailResponseActive := false), sales);
    } else if !s.targetMode && !s.retailResponseActive {
      DistributionKept(t.(state := Distributing, retailResponseActive := true, distributionBatchSize := 0), draw);
    }
  }

  lemma SellTickedKept(s: EngineState, refresh: Option<seq<nat>>, sales: seq<Sale>, draw: nat)
    requires |sales| == |s.tokens|
    ensures BuysKept(s, SellTicked(s, refresh, sales, draw))
    ensures SellTicked(s, refresh, sales, draw).round == s.round
  {
    match s.state {
      case Distributing => DistributionKept(s, draw);
      case ClearAll => SweepKept(Refreshed(s, refresh), sales);
      case _ =>
    }
  }

  lemma ExitRequestedKept(s: EngineState, refresh: Option<seq<nat>>, sales: seq<Sale>)
    requires |sales| == |s.tokens|
    ensures BuysKept(s, ExitRequested(s, refresh, sales))
    ensures ExitRequested(s, refresh, sales).round == Cancelled(s.round)
  {
    SweepKept(Refreshed(Interrupted(s).(state := ClearAll), refresh), sales);
  }

  /** No handler but a settlement, a result and the start of a round touches a buy. */
  lemma HandlerKept(s: EngineState, e: Event)
    requires Enabled(s, e) && InLoop(e) && !e.Settlement? && !e.StartRound? && !e.BatchResult?
    ensures BuysKept(s, Step(s, e))
  {
    match e {
      case RetailBuy(profitable, response, draw, sales) => RetailBoughtKept(s, profitable, response, draw, sales);
      case SellTick(refresh, sales, draw) => SellTickedKept(s, refresh, sales, draw);
      case ExitRequest(refresh, sales) => ExitRequestedKept(s, refresh, sales);
      case RetailSell =>
      case AccumulateTick(_) =>
      case Graduated =>
      case Shutdown =>
    }
  }

  /** A settlement counts its buy off and then touches no other. */
  lemma SettledKept(s: EngineState, v: nat, failed: bool, read: Option<nat>, sale: Sale, draw: nat)
    requires v < |s.tokens| == |s.unsettled| && 0 < s.unsettled[v]
    ensures BuysKept(CountedOff(s, v), Settled(s, v, failed, read, sale, draw))
    ensures Settled(s, v, failed, read, sale, draw).round == s.round
  {
    var off := CountedOff(s, v);
    if !failed {
      ConfirmedKept(off.(tokens := if read.Some? then off.tokens[v := read.value] else off.tokens), v, sale, draw);
    }
  }

  lemma ConfirmedKept(s: EngineState, v: nat, sale: Sale, draw: nat)
    ensures BuysKept(s, BuyConfirmed(s, v, sale, draw)) && BuyConfirmed(s, v, sale, draw).round == s.round
  {
    if s.state == Distributing {
      DistributionKept(s, draw);
    }
  }

  predicate Settles(s: EngineState, e: Event, w: nat) {
    e.Settlement? && e.w == w && Enabled(s, e)
  }

  /** A buy of the wallet reaches broadcast, from the round or from a batch. */
  predicate Sends(s: EngineState, e: Event, w: nat) {
    Enabled(s, e) && (e == Broadcast(w) || (e.BatchBroadcast? && e.w == w))
  }

  lemma LoopStepOpen(s: EngineState, e: Event, w: nat)
    requires Enabled(s, e) && InLoop(e) && w < |s.unsettled|
    ensures var t := Step(s, e);
            && |t.unsettled| == |s.unsettled| && Uncounted(t, w) == Uncounted(s, w)
            && Open(t, w) == Open(s, w) - if Settles(s, e, w) then 1 else 0
  {
    if e.Settlement? {
      SettledKept(s, e.w, e.failed, e.read, e.sale, e.draw);
      KeptOpen(CountedOff(s, e.w), Step(s, e), w);
    } else if e.BatchResult? {
      InBatchesSplit(s.batches, e.b, w);
    } else if !e.StartRound? {
      HandlerKept(s, e);
      KeptOpen(s, Step(s, e), w);
    }
  }

  lemma BackgroundStepOpen(s: EngineState, e: Event, w: nat)
    requires Apart(s) && Enabled(s, e) && !InLoop(e) && w < |s.unsettled|
    ensures var t := Step(s, e);
            && |t.unsettled| == |s.unsettled|
            && Open(t, w) == Open(s, w) + if Sends(s, e, w) then 1 else 0
  {
    match e {
      case BatchSale(b, _, _) => InBatchesUpdate(s.batches, b, Step(s, e).batches[b], w);
      case BatchBroadcast(b, _) => InBatchesUpdate(s.batches, b, Step(s, e).batches[b], w);
      case BatchCountBuy(b, _) => InBatchesUpdate(s.batches, b, Step(s, e).batches[b], w);
      case BatchReport(b) => InBatchesUpdate(s.batches, b, Reported, w);
      case _ =>
    }
  }

  /** In every mode a wallet's open buys rise with a broadcast, fall with a settlement, and change with nothing else. */
  lemma StepOpen(s: EngineState, e: Event, w: nat)
    requires Apart(s) && w < |s.unsettled|
    ensures |Step(s, e).unsettled| == |s.unsettled|
    ensures Open(Step(s, e), w) == Open(s, w) + (if Sends(s, e, w) then 1 else 0) - (if Settles(s, e, w) then 1 else 0)
  {
    if Enabled(s, e) {
      if InLoop(e) {
        LoopStepOpen(s, e, w);
      } else {
        BackgroundStepOpen(s, e, w);
      }
    }
  }

  lemma LoopStepApart(s: EngineState, e: Event)
    requires Apart(s) && Enabled(s, e) && InLoop(e)
    ensures Apart(Step(s, e)) && |Step(s, e).unsettled| == |s.unsettled|
  {
    if e.Settlement? {
      SettledKept(s, e.w, e.failed, e.read, e.sale, e.draw);
      KeptApart(CountedOff(s, e.w), Step(s, e));
    } else if !e.StartRound? && !e.BatchResult? {
      HandlerKept(s, e);
      KeptApart(s, Step(s, e));
    }
  }

  lemma StepApart(s: EngineState, e: Event)
    requires Apart(s)
    ensures Apart(Step(s, e)) && |Step(s, e).unsettled| == |s.unsettled|
  {
    if Enabled(s, e) && InLoop(e) {
      LoopStepApart(s, e);
    } else if Enabled(s, e) {
      BackgroundStepApart(s, e);
    }
  }

  lemma BackgroundStepApart(s: EngineState, e: Event)
    requires Apart(s) && Enabled(s, e) && !InLoop(e)
    ensures Apart(Step(s, e)) && |Step(s, e).unsettled| == |s.unsettled|
  {
  }

  // ---------------------------------------------------------------------
  // No buy is lost, in any mode
  // ---------------------------------------------------------------------

  /** Buys of the wallet broadcast so far in a run. */
  function Broadcasts(s: EngineState, events: seq<Event>, w: nat): nat {
    if events == [] then 0
    else
      var n := |events| - 1;
      Broadcasts(s, events[..n], w) + if Sends(Run(s, events[..n]), events[n], w) then 1 else 0
  }

  /** Settlements of the wallet's buys applied so far in a run. */
  function Settlements(s: EngineState, events: seq<Event>, w: nat): nat {
    if events == [] then 0
    else
      var n := |events| - 1;
      Settlements(s, events[..n], w) + if Settles(Run(s, events[..n]), events[n], w) then 1 else 0
  }

  /** Over every run, in either mode, each wallet's buys are its settled ones plus those still open. */
  lemma {:induction false} BuysAreConserved(s: EngineState, events: seq<Event>, w: nat)
    requires Started(s) && w < |s.unsettled|
    ensures var t := Run(s, events);
            && Apart(t) && |t.unsettled| == |s.unsettled|
            && s.unsettled[w] + Broadcasts(s, events, w) == Settlements(s, events, w) + Open(t, w)
  {
    if events != [] {
      var n := |events| - 1;
      BuysAreConserved(s, events[..n], w);
      StepApart(Run(s, events[..n]), events[n]);
      StepOpen(Run(s, events[..n]), events[n], w);
    }
  }

  /** When the strategy ends, except by graduation, the buys left open are exactly those that
      were broadcast, by the round or by a batch, and not yet counted when the step began. */
  lemma OpenAtDone(s: EngineState, e: Event, t: EngineState, w: nat)
    requires Bookkept(s) && Apart(s) && w < |s.unsettled|
    requires t == Step(s, e) && s.state != Done && t.state == Done && !e.Graduated?
    ensures |t.unsettled| == |s.unsettled| && Open(t, w) == Uncounted(s, w)
  {
    DoneOnlyWhenEmpty(s, e, t);
    if Enabled(s, e) && InLoop(e) {
      LoopStepOpen(s, e, w);
    } else if Enabled(s, e) {
      BackgroundStepBookkept(s, e);
    }
  }

  // ---------------------------------------------------------------------
  // One buy per wallet per cycle, in distribute mode
  // ---------------------------------------------------------------------

  /** No wallet has two buys open, and the wallets a round may still buy from have none. */
  ghost predicate OpenOnce(s: EngineState) {
    && Apart(s)
    && (forall w :: 0 <= w < |s.unsettled| ==> Open(s, w) <= 1)
    && (s.round.Starting? ==> forall w :: 0 <= w < |s.unsettled| ==> Open(s, w) == 0)
    && (s.round.Buying? ==> forall w :: w in s.round.left ==> 0 < w < |s.tokens| && Open(s, w) == 0)
  }

  /** While a round is not cancelled the strategy accumulates, and the wallets still to buy hold nothing. */
  ghost predicate Quiet(s: EngineState) {
    !s.round.NoRound? && !s.round.cancelled ==>
      && (s.state == Accumulating || s.state == Done)
      && (s.round.Buying? ==> forall w :: w in s.round.left && w < |s.tokens| ==> s.tokens[w] == 0)
  }

  /** No response batch buys. */
  ghost predicate NoBuyingBatch(s: EngineState) {
    !s.targetMode && forall b :: 0 <= b < |s.batches| ==> !s.batches[b].BuyingBatch?
  }

  /** Between its check and its start a tick accumulates. */
  predicate Guarded(s: EngineState) {
    s.ticking ==> s.state in {Accumulating, Done}
  }

  ghost predicate OneBuyEach(s: EngineState) {
    OpenOnce(s) && Quiet(s) && NoBuyingBatch(s) && Guarded(s)
  }

  /** A round starts although a buy is pending: another round counted it and ended since the tick's check. */
  predicate RacedStart(s: EngineState, e: Event) {
    e.StartRound? && Enabled(s, e) && s.round.NoRound? && 0 < s.pendingBuys
  }

  lemma StepGuarded(s: EngineState, e: Event)
    requires Bookkept(s) && Guarded(s)
    ensures Guarded(Step(s, e))
  {
    if Enabled(s, e) {
      if InLoop(e) {
        LoopLeavesTick(s, e);
      } else {
        BackgroundStepBookkept(s, e);
      }
    }
  }

  /** Only the two halves of a tick begin and end it. */
  lemma LoopLeavesTick(s: EngineState, e: Event)
    requires Enabled(s, e) && InLoop(e)
    ensures e.AccumulateTick? || !Step(s, e).ticking
  {
    match e {
      case RetailBuy(_, _, _, _) =>
      case SellTick(_, _, _) =>
      case Settlement(_, _, _, _, _) =>
      case ExitRequest(_, _) =>
      case _ =>
    }
  }

  lemma StepNoBuyingBatch(s: EngineState, e: Event)
    requires NoBuyingBatch(s) && |s.unsettled| == |s.tokens|
    ensures NoBuyingBatch(Step(s, e))
  {
    if Enabled(s, e) && e.Settlement? {
      SettledKept(s, e.w, e.failed, e.read, e.sale, e.draw);
      KeptNoBuyingBatch(CountedOff(s, e.w), Step(s, e));
    } else if Enabled(s, e) && InLoop(e) && !e.StartRound? && !e.BatchResult? {
      HandlerKept(s, e);
      KeptNoBuyingBatch(s, Step(s, e));
    }
  }

  lemma KeptNoBuyingBatch(s: EngineState, t: EngineState)
    requires NoBuyingBatch(s) && BuysKept(s, t)
    ensures NoBuyingBatch(t)
  {
    forall b | 0 <= b < |t.batches|
      ensures !t.batches[b].BuyingBatch?
    {
      if b < |s.batches| {
        assert t.batches[..|s.batches|][b] == s.batches[b];
      }
    }
  }

  /** In the loop a round is only cancelled or started; left alone it has the same wallets to buy from. */
  lemma LoopStepRound(s: EngineState, e: Event)
    requires Enabled(s, e) && InLoop(e)
    ensures var t := Step(s, e);
            || t.round == s.round || t.round == Cancelled(s.round)
            || (e.StartRound? && s.round.NoRound? && t.round == Starting(false))
  {
    if e.Settlement? {
      SettledKept(s, e.w, e.failed, e.read, e.sale, e.draw);
    } else if !e.StartRound? && !e.BatchResult? {
      HandlerKept(s, e);
    }
  }

  lemma NothingPending(s: EngineState)
    requires Bookkept(s) && s.pendingBuys == 0
    ensures forall w :: 0 <= w < |s.unsettled| ==> s.unsettled[w] == 0
  {
    SumNonNegative(s.unsettled);
  }

  lemma {:induction false} NoneInBatches(batches: seq<Batch>, w: nat)
    requires forall b :: 0 <= b < |batches| ==> !batches[b].BuyingBatch?
    ensures InBatches(batches, w) == 0
  {
    if batches != [] {
      NoneInBatches(batches[1..], w);
    }
  }

  /** A round starting with nothing pending finds no buy open. */
  lemma StartFindsNoneOpen(s: EngineState, w: nat)
    requires Bookkept(s) && NoBuyingBatch(s) && s.round.NoRound? && s.pendingBuys == 0 && w < |s.unsettled|
    ensures Open(s, w) == 0
  {
    NothingPending(s);
    NoneInBatches(s.batches, w);
  }

  lemma StepOpenOnce(s: EngineState, e: Event)
    requires OpenOnce(s) && NoBuyingBatch(s) && Bookkept(s) && Enabled(s, e) && !RacedStart(s, e)
    ensures OpenOnce(Step(s, e))
  {
    var t := Step(s, e);
    StepApart(s, e);
    StepLeft(s, e);
    forall w | 0 <= w < |t.unsettled|
      ensures Open(t, w) <= 1
      ensures t.round.Starting? || (t.round.Buying? && w in t.round.left) ==> Open(t, w) == 0
    {
      StepOpen(s, e, w);
      if e.StartRound? && s.round.NoRound? {
        StartFindsNoneOpen(s, w);
      }
    }
  }

  /** A wallet comes to be bought from only when the round is planned, and leaves it when its buy is sent. */
  lemma StepLeft(s: EngineState, e: Event)
    requires NoBuyingBatch(s) && Enabled(s, e)
    ensures var t := Step(s, e);
            && (t.round.Starting? ==> s.round.Starting? || (e.StartRound? && s.round.NoRound?))
            && (t.round.Buying? && s.round.Buying? ==> t.round.left <= s.round.left)
            && (t.round.Buying? && !s.round.Buying? ==>
                  s.round.Starting? && forall w :: w in t.round.left ==> 0 < w < |t.tokens|)
            && forall w :: Sends(s, e, w) ==>
                 s.round.Buying? && t.round.Buying? && w in s.round.left && w !in t.round.left
  {
    if InLoop(e) {
      LoopStepRound(s, e);
    }
  }

  lemma LoopStepQuiet(s: EngineState, e: Event)
    requires OneBuyEach(s) && Enabled(s, e) && InLoop(e)
    ensures Quiet(Step(s, e))
  {
    match e {
      case RetailBuy(profitable, response, draw, sales) => RetailBoughtKept(s, profitable, response, draw, sales);
      case SellTick(refresh, sales, draw) => SellTickedKept(s, refresh, sales, draw);
      case Settlement(w, failed, read, sale, draw) =>
        SettledKept(s, w, failed, read, sale, draw);
        assert 0 < Open(s, w);
      case ExitRequest(refresh, sales) => ExitRequestedKept(s, refresh, sales);
      case _ =>
    }
  }

  lemma StepOneBuy(s: EngineState, e: Event)
    requires OneBuyEach(s) && Bookkept(s) && !RacedStart(s, e)
    ensures OneBuyEach(Step(s, e))
  {
    if Enabled(s, e) {
      StepOpenOnce(s, e);
      StepGuarded(s, e);
      StepNoBuyingBatch(s, e);
      if InLoop(e) {
        LoopStepQuiet(s, e);
      }
    }
  }

  /** No round of the run starts over a pending buy. */
  ghost predicate NoRacedStart(s: EngineState, events: seq<Event>) {
    forall k :: 0 <= k < |events| ==> !RacedStart(Run(s, events[..k]), events[k])
  }

  lemma NoRacedPrefix(s: EngineState, events: seq<Event>, n: nat)
    requires NoRacedStart(s, events) && n <= |events|
    ensures NoRacedStart(s, events[..n])
  {
    forall k | 0 <= k < n
      ensures !RacedStart(Run(s, events[..n][..k]), events[..n][k])
    {
      assert events[..n][..k] == events[..k];
    }
  }

  lemma StartedOneBuy(s: EngineState)
    requires Started(s) && !s.targetMode
    ensures OneBuyEach(s) && Bookkept(s)
  {
  }

  /** In distribute mode no wallet ever has two buys open, over every run in which no round
      starts over a pending buy. */
  lemma {:induction false} AlwaysOneBuyEach(s: EngineState, events: seq<Event>)
    requires Started(s) && !s.targetMode && NoRacedStart(s, events)
    ensures OneBuyEach(Run(s, events)) && Bookkept(Run(s, events))
  {
    AlwaysBookkept(s, events);
    if events == [] {
      StartedOneBuy(s);
    } else {
      var n := |events| - 1;
      NoRacedPrefix(s, events, n);
      AlwaysOneBuyEach(s, events[..n]);
      StepOneBuy(Run(s, events[..n]), events[n]);
    }
  }

  /** Over those runs no buy is ever broadcast from the treasury, from a wallet whose cache
      shows tokens, or from one with a buy still open. */
  lemma BroadcastOnlyWhenFlat(s: EngineState, events: seq<Event>, w: nat)
    requires Started(s) && !s.targetMode && NoRacedStart(s, events)
    requires Enabled(Run(s, events), Broadcast(w))
    ensures var t := Run(s, events);
            0 < w < |t.tokens| == |t.unsettled| && t.tokens[w] == 0 && Open(t, w) == 0
  {
    AlwaysOneBuyEach(s, events);
  }

  lemma {:induction false} BroadcastsMono(s: EngineState, events: seq<Event>, k: nat, w: nat)
    requires k <= |events|
    ensures Broadcasts(s, events[..k], w) <= Broadcasts(s, events, w)
    decreases |events|
  {
    if k < |events| {
      var n := |events| - 1;
      BroadcastsMono(s, events[..n], k, w);
      assert events[..n][..k] == events[..k];
    } else {
      assert events[..k] == events;
    }
  }

  lemma BroadcastCounts(s: EngineState, events: seq<Event>, k: nat, w: nat)
    requires k < |events| && Sends(Run(s, events[..k]), events[k], w)
    ensures Broadcasts(s, events[..k], w) < Broadcasts(s, events, w)
  {
    assert events[..k + 1][..k] == events[..k];
    assert Broadcasts(s, events[..k + 1], w) == Broadcasts(s, events[..k], w) + 1;
    BroadcastsMono(s, events, k + 1, w);
  }

  /** Over those runs a wallet is bought from again only after a settlement of its earlier buy
      was applied, and with its cached balance at zero. */
  lemma RebuyNeedsSettlement(s: EngineState, events: seq<Event>, k: nat, w: nat)
    requires Started(s) && !s.targetMode && NoRacedStart(s, events)
    requires k < |events| && events[k] == Broadcast(w) && Enabled(Run(s, events[..k]), Broadcast(w))
    requires Enabled(Run(s, events), Broadcast(w))
    ensures Settlements(s, events[..k], w) < Settlements(s, events, w)
    ensures w < |Run(s, events).tokens| && Run(s, events).tokens[w] == 0
  {
    NoRacedPrefix(s, events, k);
    BroadcastOnlyWhenFlat(s, events[..k], w);
    BroadcastOnlyWhenFlat(s, events, w);
    SizesStay(s, events);
    BuysAreConserved(s, events[..k], w);
    BuysAreConserved(s, events, w);
    BroadcastCounts(s, events, k, w);
  }

  lemma {:induction false} SizesStay(s: EngineState, events: seq<Event>)
    requires Started(s)
    ensures Apart(Run(s, events)) && |Run(s, events).unsettled| == |s.unsettled|
  {
    if events != [] {
      var n := |events| - 1;
      SizesStay(s, events[..n]);
      StepApart(Run(s, events[..n]), events[n]);
    }
  }

  // ---------------------------------------------------------------------
  // Where those conditions are exact
  // ---------------------------------------------------------------------

  /** What a tick past its check can still do to a maker that holds nothing. */
  function NextBuy(w: nat): seq<Event> {
    [StartRound, PlanRound({w}), Broadcast(w)]
  }

  lemma ThreeSteps(s: EngineState, x: Event, y: Event, z: Event)
    ensures Run(s, [x, y, z]) == Step(Step(Step(s, x), y), z)
  {
    assert [x, y, z][..2] == [x, y] && [x, y][..1] == [x] && [x][..0] == [];
    assert Run(s, []) == s && Run(s, [x]) == Step(s, x);
  }

  lemma NextBuyRuns(s: EngineState, w: nat)
    requires |s.unsettled| == |s.tokens| && s.state != Done && !s.exited && s.ticking && s.round.NoRound?
    requires 0 < w < |s.tokens| && s.tokens[w] == 0
    ensures Run(s, NextBuy(w)) == s.(ticking := false, round := Buying(false, {}, {w}))
  {
    ThreeSteps(s, StartRound, PlanRound({w}), Broadcast(w));
    var a := s.(ticking := false, round := Starting(false));
    assert Step(s, StartRound) == a;
    assert Eligible(a, {w}) == {w};
    assert Step(a, PlanRound({w})) == a.(round := Buying(false, {w}, {}));
    assert {w} - {w} == {} && {} + {w} == {w};
  }

  /** With no round running, a start in distribute mode is safe for a maker that holds nothing
      exactly when its earlier buy is settled: otherwise the maker buys twice. */
  lemma StartIsSafeIff(s: EngineState, w: nat)
    requires |s.unsettled| == |s.tokens| && s.state != Done && !s.exited && s.ticking && s.round.NoRound?
    requires NoBuyingBatch(s) && 0 < w < |s.tokens| && s.tokens[w] == 0
    ensures |Run(s, NextBuy(w)).unsettled| == |s.unsettled|
    ensures Open(Run(s, NextBuy(w)), w) <= 1 <==> s.unsettled[w] == 0
  {
    NextBuyRuns(s, w);
    NoneInBatches(s.batches, w);
  }

  /** A maker whose buy was the only one pending may buy again after its settlement exactly when
      the settlement failed, as it does when no receipt arrives in time, or left the cached balance at zero. */
  lemma ReadmittedIff(s: EngineState, w: nat, failed: bool, read: Option<nat>, sale: Sale, draw: nat)
    requires |s.unsettled| == |s.tokens| && s.state == Accumulating && !s.exited && !s.ticking && s.round.NoRound?
    requires 0 < w < |s.tokens| && s.tokens[w] == 0 && s.unsettled[w] == 1 == s.pendingBuys && 4 <= draw <= 6
    ensures var settled := Step(s, Settlement(w, failed, read, sale, draw));
            Enabled(Run(settled, [AccumulateTick(false), StartRound, PlanRound({w})]), Broadcast(w))
            <==> failed || read == None || read == Some(0)
  {
    var settled := Step(s, Settlement(w, failed, read, sale, draw));
    SettledToZero(s, w, failed, read, sale, draw);
    ThreeSteps(settled, AccumulateTick(false), StartRound, PlanRound({w}));
    var checked := settled.(ticking := true);
    assert Step(settled, AccumulateTick(false)) == checked;
    var started := settled.(round := Starting(false));
    assert Step(checked, StartRound) == started;
    assert w in Eligible(started, {w}) <==> settled.tokens[w] == 0;
  }

  /** The settlement of the one pending buy leaves nothing pending, and the balance it read. */
  lemma SettledToZero(s: EngineState, w: nat, failed: bool, read: Option<nat>, sale: Sale, draw: nat)
    requires |s.unsettled| == |s.tokens| && s.state == Accumulating && !s.exited && !s.ticking
    requires w < |s.tokens| && s.unsettled[w] == 1 == s.pendingBuys && 4 <= draw <= 6
    ensures Step(s, Settlement(w, failed, read, sale, draw))
            == s.(pendingBuys := 0, unsettled := s.unsettled[w := 0],
                  tokens := if failed || read.None? then s.tokens else s.tokens[w := read.value])
  {
  }

  // --- runs that miss them ---

  /** A fresh pool of two wallets. */
  function FreshPair(targetMode: bool): EngineState {
    EngineState(targetMode, Accumulating, 0, false, false, 0, [0, 0], false, false, NoRound, [], [0, 0])
  }

  lemma FreshPairIsStarted(targetMode: bool)
    ensures Started(FreshPair(targetMode)) && Sum([0, 0]) == 0 && Holders([0, 0]) == []
  {
    assert [0, 0][1..] == [0] && [0][1..] == [];
    assert Sum([0]) == 0 + Sum([]);
    assert Sum([0, 0]) == 0 + Sum([0]);
    assert [0, 0][..1] == [0] && [0][..0] == [];
    assert Holders([0]) == Holders([]) + [];
  }

  /** One tick whose round broadcasts a buy of the maker. */
  function FirstBuy(): seq<Event> {
    [AccumulateTick(false)] + NextBuy(1)
  }

  lemma FirstBuyRuns()
    ensures Run(FreshPair(false), FirstBuy()) == FreshPair(false).(round := Buying(false, {}, {1}))
  {
    RunConcat(FreshPair(false), [AccumulateTick(false)], NextBuy(1));
    OneStep(FreshPair(false), AccumulateTick(false));
    NextBuyRuns(FreshPair(false).(ticking := true), 1);
  }

  /** Its buy is counted, and it ends, inside the next tick. */
  function RacedTick(): seq<Event> {
    FirstBuy() + [AccumulateTick(false), CountBuy(1), EndRound]
  }

  /** The race itself: the next tick is checked, then the first buy is counted. */
  lemma CheckedThenCounted()
    ensures var s := FreshPair(false).(round := Buying(false, {}, {1}));
            Step(Step(s, AccumulateTick(false)), CountBuy(1))
            == FreshPair(false).(ticking := true, round := Buying(false, {}, {}), pendingBuys := 1, unsettled := [0, 1])
  {
    var s := FreshPair(false).(round := Buying(false, {}, {1}));
    assert Step(s, AccumulateTick(false)) == s.(ticking := true);
    assert {1} - {1} == {} && [0, 0][1 := 1] == [0, 1];
  }

  lemma RacedTickRuns()
    ensures Run(FreshPair(false), RacedTick())
            == FreshPair(false).(ticking := true, pendingBuys := 1, unsettled := [0, 1])
  {
    FirstBuyRuns();
    CheckedThenCounted();
    RunConcat(FreshPair(false), FirstBuy(), [AccumulateTick(false), CountBuy(1), EndRound]);
    ThreeSteps(FreshPair(false).(round := Buying(false, {}, {1})), AccumulateTick(false), CountBuy(1), EndRound);
  }

  /** The next start is raced, and such a run buys twice from one wallet, with the first buy not settled. */
  lemma RacedTickBuysTwice()
    ensures Started(FreshPair(false)) && !NoRacedStart(FreshPair(false), RacedTick() + NextBuy(1))
    ensures var t := Run(FreshPair(false), RacedTick() + NextBuy(1)); |t.unsettled| == 2 && Open(t, 1) == 2
  {
    FreshPairIsStarted(false);
    RacedTickRuns();
    var s, all := Run(FreshPair(false), RacedTick()), RacedTick() + NextBuy(1);
    RunConcat(FreshPair(false), RacedTick(), NextBuy(1));
    NextBuyRuns(s, 1);
    assert all[..7] == RacedTick() && all[7] == StartRound;
    assert RacedStart(Run(FreshPair(false), all[..7]), all[7]);
  }

  /** A retail buy between a maker's broadcast and its count ends the strategy over an open buy. */
  lemma DoneCanStrandABuy()
    ensures var t := Run(FreshPair(false), FirstBuy() + [RetailBuy(false, None, 4, [Failed, Failed])]);
            t.state == Done && |t.unsettled| == 2 && Open(t, 1) == 1
  {
    var last := RetailBuy(false, None, 4, [Failed, Failed]);
    FirstBuyRuns();
    RunConcat(FreshPair(false), FirstBuy(), [last]);
    OneStep(FreshPair(false).(round := Buying(false, {}, {1})), last);
    RetailEndsFlat(last);
  }

  lemma RetailEndsFlat(last: Event)
    requires last == RetailBuy(false, None, 4, [Failed, Failed])
    ensures Step(FreshPair(false).(round := Buying(false, {}, {1})), last)
            == FreshPair(false).(round := Buying(true, {}, {1}), state := Done)
  {
    FreshPairIsStarted(false);
    var s := FreshPair(false).(round := Buying(true, {}, {1}), state := Distributing, retailResponseActive := true);
    assert DistributionStarted(s, 4) == s.(retailResponseActive := false, state := Done);
  }

  /** So it does in target mode, between the broadcast and the count of a response batch's buy. */
  lemma TargetDoneCanStrandABuy()
    ensures var support := RetailBuy(false, Some(BuyingBatch({1}, {})), 4, [Failed, Failed]);
            var t := Run(FreshPair(true), [support, BatchBroadcast(0, 1), RetailBuy(true, None, 4, [Failed, Failed])]);
            Started(FreshPair(true)) && t.state == Done && |t.unsettled| == 2 && Open(t, 1) == 1
  {
    var support := RetailBuy(false, Some(BuyingBatch({1}, {})), 4, [Failed, Failed]);
    var exit := RetailBuy(true, None, 4, [Failed, Failed]);
    var s := FreshPair(true);
    FreshPairIsStarted(true);
    ThreeSteps(s, support, BatchBroadcast(0, 1), exit);
    TargetBuySent(support);
    TargetEndsFlat(exit);
    LoopStepOpen(TargetSent(), exit, 1);
  }

  /** A target-mode strategy whose one response batch has sent its only buy. */
  function TargetSent(): EngineState {
    FreshPair(true).(distributionRoundRunning := true, batches := [BuyingBatch({}, {1})])
  }

  lemma TargetBuySent(support: Event)
    requires support == RetailBuy(false, Some(BuyingBatch({1}, {})), 4, [Failed, Failed])
    ensures Step(Step(FreshPair(true), support), BatchBroadcast(0, 1)) == TargetSent()
  {
    var a := FreshPair(true).(distributionRoundRunning := true, batches := [BuyingBatch({1}, {})]);
    assert Step(FreshPair(true), support) == a;
    assert {1} - {1} == {} && {} + {1} == {1};
  }

  lemma TargetEndsFlat(exit: Event)
    requires exit == RetailBuy(true, None, 4, [Failed, Failed])
    ensures Enabled(TargetSent(), exit) && Step(TargetSent(), exit).state == Done
  {
    FreshPairIsStarted(true);
    assert AfterSweep([0, 0], [Failed, Failed]) == [0, 0];
    assert !SweepFails([0, 0], [Failed, Failed]);
  }
}
