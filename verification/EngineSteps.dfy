/** The market maker as a state machine: the handlers of its event loop and the
    goroutines that run beside it, each one atomic step. Wallets are positions
    in the pool's list; position 0 is the treasury. */
module EngineSteps {
  import opened FloorMath
  import opened Decide
  import opened Optional

  /** What became of one wallet's sell: not confirmed, or confirmed with the balance read afterwards. */
  datatype Sale = Failed | Sold(after: nat)

  /** The accumulation round in the background: wallets still to buy, and buys broadcast but not yet counted. */
  datatype Round =
    | NoRound
    | Starting(cancelled: bool)
    | Buying(cancelled: bool, left: set<nat>, uncounted: set<nat>)

  /** A response batch in the background, or its result waiting in the channel. */
  datatype Batch =
    | SellingBatch(left: set<nat>)
    | BuyingBatch(left: set<nat>, uncounted: set<nat>)
    | Reported

  datatype EngineState = EngineState(
    targetMode: bool,
    state: State,
    pendingBuys: nat,
    retailResponseActive: bool,
    distributionRoundRunning: bool,
    distributionBatchSize: nat,
    tokens: seq<nat>,      // cached token balance of every wallet
    ticking: bool,         // the loop is inside an accumulation tick, past its check
    exited: bool,          // Run returned on a failed one-click exit or a shutdown
    round: Round,
    batches: seq<Batch>,
    unsettled: seq<nat>)   // per wallet, counted buys whose settlement is not applied yet

  // ---------------------------------------------------------------------
  // Balances
  // ---------------------------------------------------------------------

  /** Positions of the wallets that hold tokens, in pool order. */
  function Holders(tokens: seq<nat>): seq<nat> {
    if tokens == [] then []
    else
      var n := |tokens| - 1;
      Holders(tokens[..n]) + if tokens[n] == 0 then [] else [n]
  }

  /** The balance cache after one sell; an empty wallet has nothing to sell. */
  function AfterSale(tokens: seq<nat>, w: nat, sale: Sale): (t: seq<nat>)
    ensures |t| == |tokens|
  {
    if w < |tokens| && tokens[w] != 0 && sale.Sold? then tokens[w := sale.after] else tokens
  }

  /** The balance cache after every wallet was swept at once. */
  function AfterSweep(tokens: seq<nat>, sales: seq<Sale>): (t: seq<nat>)
    requires |sales| == |tokens|
    ensures |t| == |tokens|
  {
    seq(|tokens|,
        w requires 0 <= w < |tokens| => if tokens[w] != 0 && sales[w].Sold? then sales[w].after else tokens[w])
  }

  predicate SweepFails(tokens: seq<nat>, sales: seq<Sale>)
    requires |sales| == |tokens|
  {
    exists w :: 0 <= w < |tokens| && tokens[w] != 0 && sales[w].Failed?
  }

  // ---------------------------------------------------------------------
  // Handlers of the event loop
  // ---------------------------------------------------------------------

  /** Cancels every buy of the running round that has not reached broadcast. */
  function Cancelled(round: Round): Round {
    match round
    case NoRound => NoRound
    case Starting(_) => Starting(true)
    case Buying(_, left, uncounted) => Buying(true, left, uncounted)
  }

  function Interrupted(s: EngineState): EngineState {
    s.(round := Cancelled(s.round))
  }

  function Drained(s: EngineState): EngineState {
    if s.state == ClearAll && s.pendingBuys == 0 && Sum(s.tokens) == 0 then s.(state := Done) else s
  }

  function ClearedAll(s: EngineState, sales: seq<Sale>): EngineState
    requires |sales| == |s.tokens|
  {
    var t := s.(tokens := AfterSweep(s.tokens, sales));
    if SweepFails(s.tokens, sales) then t else Drained(t)
  }

  /** The first wallets of a distribution batch; the size is drawn once per response. */
  function BatchSize(s: EngineState, draw: nat): nat {
    if s.distributionBatchSize == 0 then draw else s.distributionBatchSize
  }

  function BatchWallets(s: EngineState, draw: nat): seq<nat> {
    var held := Holders(s.tokens);
    held[..Min(BatchSize(s, draw), |held|)]
  }

  function Elements(ws: seq<nat>): set<nat> {
    set w | w in ws
  }

  function DistributionStarted(s: EngineState, draw: nat): EngineState {
    if s.distributionRoundRunning then s
    else if Holders(s.tokens) == [] then
      if s.pendingBuys == 0 && Sum(s.tokens) == 0 then s.(retailResponseActive := false, state := Done) else s
    else
      s.(distributionBatchSize := BatchSize(s, draw),
         distributionRoundRunning := true,
         batches := s.batches + [SellingBatch(Elements(BatchWallets(s, draw)))])
  }

  function TargetStarted(s: EngineState, response: Option<Batch>): EngineState {
    if s.distributionRoundRunning || response.None? then s
    else s.(distributionRoundRunning := true, batches := s.batches + [response.value])
  }

  function RetailBought(s0: EngineState, profitable: bool, response: Option<Batch>, draw: nat,
                        sales: seq<Sale>): EngineState
    requires |sales| == |s0.tokens|
  {
    var s := Interrupted(s0);
    if profitable then
      ClearedAll(s.(state := ClearAll, retailResponseActive := false), sales)
    else if s.targetMode then
      TargetStarted(s, response)
    else if s.retailResponseActive then
      s.(state := Distributing)
    else
      DistributionStarted(s.(state := Distributing, retailResponseActive := true, distributionBatchSize := 0), draw)
  }

  function RetailSold(s: EngineState): EngineState {
    if s.retailResponseActive && s.state == Distributing then
      s.(retailResponseActive := false, state := Accumulating)
    else s
  }

  /** An accumulation tick first checks that no buy is pending and none is held back. */
  function AccumulationChecked(s: EngineState, paused: bool): EngineState {
    if s.pendingBuys > 0 || paused then s else s.(ticking := true)
  }

  /** Then it takes the round's lock, and starts a round when none is running by then. */
  function RoundStarted(s: EngineState): EngineState {
    s.(ticking := false, round := if s.round.NoRound? then Starting(false) else s.round)
  }

  /** What a confirmed buy sets off. */
  function BuyConfirmed(s: EngineState, w: nat, sale: Sale, draw: nat): EngineState {
    match s.state
    case ClearAll => Drained(s.(tokens := AfterSale(s.tokens, w, sale)))
    case Distributing => if s.retailResponseActive then DistributionStarted(s, draw) else s
    case _ => s
  }

  function Settled(s0: EngineState, w: nat, failed: bool, read: Option<nat>, sale: Sale, draw: nat): EngineState
    requires w < |s0.tokens| == |s0.unsettled|
  {
    var s := s0.(pendingBuys := if s0.pendingBuys > 0 then s0.pendingBuys - 1 else s0.pendingBuys,
                 unsettled := if s0.unsettled[w] > 0 then s0.unsettled[w := s0.unsettled[w] - 1] else s0.unsettled);
    if failed then Drained(s)
    else
      var t := s.(tokens := if read.Some? then s.tokens[w := read.value] else s.tokens);
      BuyConfirmed(t, w, sale, draw)
  }

  function ResultApplied(s0: EngineState): EngineState {
    var s := s0.(distributionRoundRunning := false);
    if s.state == Distributing && s.pendingBuys == 0 && Sum(s.tokens) == 0 then
      s.(retailResponseActive := false, state := Done)
    else s
  }

  function Refreshed(s: EngineState, refresh: Option<seq<nat>>): (t: EngineState)
    ensures |t.tokens| == |s.tokens|
  {
    if refresh.Some? && |refresh.value| == |s.tokens| then s.(tokens := refresh.value) else s
  }

  function ExitRequested(s0: EngineState, refresh: Option<seq<nat>>, sales: seq<Sale>): EngineState
    requires |sales| == |s0.tokens|
  {
    var s := Refreshed(Interrupted(s0).(state := ClearAll), refresh);
    ClearedAll(s, sales).(exited := SweepFails(s.tokens, sales))
  }

  function SellTicked(s: EngineState, refresh: Option<seq<nat>>, sales: seq<Sale>, draw: nat): EngineState
    requires |sales| == |s.tokens|
  {
    match s.state
    case Distributing => DistributionStarted(s, draw)
    case ClearAll => ClearedAll(Refreshed(s, refresh), sales)
    case _ => s
  }

  // ---------------------------------------------------------------------
  // Steps of a run
  // ---------------------------------------------------------------------

  datatype Event =
    // the event loop
    | RetailBuy(profitable: bool, response: Option<Batch>, draw: nat, sales: seq<Sale>)
    | RetailSell
    | AccumulateTick(paused: bool)
    | StartRound
    | SellTick(refresh: Option<seq<nat>>, sales: seq<Sale>, draw: nat)
    | Settlement(w: nat, failed: bool, read: Option<nat>, sale: Sale, draw: nat)
    | BatchResult(b: nat)
    | ExitRequest(refresh: Option<seq<nat>>, sales: seq<Sale>)
    | Graduated
    | Shutdown
    // the accumulation round
    | PlanRound(makers: set<nat>)
    | Broadcast(w: nat)
    | CountBuy(w: nat)
    | EndRound
    // the response batches
    | BatchSale(b: nat, w: nat, sale: Sale)
    | BatchBroadcast(b: nat, w: nat)
    | BatchCountBuy(b: nat, w: nat)
    | BatchReport(b: nat)

  predicate InLoop(e: Event) {
    || e.RetailBuy? || e.RetailSell? || e.AccumulateTick? || e.StartRound? || e.SellTick?
    || e.Settlement? || e.BatchResult? || e.ExitRequest? || e.Graduated? || e.Shutdown?
  }

  /** A response the planner can produce: whole wallets to sell, or makers to buy from. */
  predicate Fresh(response: Option<Batch>, n: nat) {
    response.None?
    || (response.value.SellingBatch? && forall w :: w in response.value.left ==> w < n)
    || (response.value.BuyingBatch? && response.value.uncounted == {} && forall w :: w in response.value.left ==> w < n)
  }

  /** Whether the event can happen in the state. */
  predicate Enabled(s: EngineState, e: Event) {
    && |s.unsettled| == |s.tokens|
    && (InLoop(e) ==> s.state != Done && !s.exited && (s.ticking <==> e.StartRound?))
    && match e
       case RetailBuy(_, response, draw, sales) =>
         |sales| == |s.tokens| && 4 <= draw <= 6 && Fresh(response, |s.tokens|)
       case RetailSell => true
       case AccumulateTick(_) => s.state == Accumulating
       case StartRound => true
       case SellTick(_, sales, draw) => |sales| == |s.tokens| && 4 <= draw <= 6
       case Settlement(w, _, _, _, draw) => w < |s.tokens| && 0 < s.unsettled[w] && 4 <= draw <= 6
       case BatchResult(b) => b < |s.batches| && s.batches[b].Reported?
       case ExitRequest(_, sales) => |sales| == |s.tokens|
       case Graduated => true
       case Shutdown => true
       case PlanRound(_) => s.round.Starting?
       case Broadcast(w) => s.round.Buying? && !s.round.cancelled && w in s.round.left
       case CountBuy(w) => s.round.Buying? && w in s.round.uncounted && w < |s.tokens|
       case EndRound => s.round.Starting? || (s.round.Buying? && s.round.uncounted == {})
       case BatchSale(b, w, _) =>
         b < |s.batches| && s.batches[b].SellingBatch? && w in s.batches[b].left && w < |s.tokens|
       case BatchBroadcast(b, w) => b < |s.batches| && s.batches[b].BuyingBatch? && w in s.batches[b].left
       case BatchCountBuy(b, w) =>
         b < |s.batches| && s.batches[b].BuyingBatch? && w in s.batches[b].uncounted && w < |s.tokens|
       case BatchReport(b) =>
         b < |s.batches| && !s.batches[b].Reported? && (s.batches[b].BuyingBatch? ==> s.batches[b].uncounted == {})
  }

  /** The makers of a round: those that may buy and hold nothing. */
  function Eligible(s: EngineState, makers: set<nat>): set<nat> {
    set w | w in makers && 0 < w < |s.tokens| && s.tokens[w] == 0
  }

  function Counted(s: EngineState, w: nat): EngineState
    requires w < |s.unsettled|
  {
    s.(pendingBuys := s.pendingBuys + 1, unsettled := s.unsettled[w := s.unsettled[w] + 1])
  }

  /** One step; an event that cannot happen changes nothing. */
  function Step(s: EngineState, e: Event): EngineState {
    if !Enabled(s, e) then s
    else match e
      case RetailBuy(profitable, response, draw, sales) => RetailBought(s, profitable, response, draw, sales)
      case RetailSell => RetailSold(s)
      case AccumulateTick(paused) => AccumulationChecked(s, paused)
      case StartRound => RoundStarted(s)
      case SellTick(refresh, sales, draw) => SellTicked(s, refresh, sales, draw)
      case Settlement(w, failed, read, sale, draw) => Settled(s, w, failed, read, sale, draw)
      case BatchResult(b) => ResultApplied(s.(batches := s.batches[..b] + s.batches[b + 1..]))
      case ExitRequest(refresh, sales) => ExitRequested(s, refresh, sales)
      case Graduated => s.(state := Done)
      case Shutdown => Interrupted(s).(exited := true)
      case PlanRound(makers) => s.(round := Buying(s.round.cancelled, Eligible(s, makers), {}))
      case Broadcast(w) => s.(round := Buying(false, s.round.left - {w}, s.round.uncounted + {w}))
      case CountBuy(w) => Counted(s.(round := s.round.(uncounted := s.round.uncounted - {w})), w)
      case EndRound => s.(round := NoRound)
      case BatchSale(b, w, sale) =>
        s.(tokens := AfterSale(s.tokens, w, sale), batches := s.batches[b := SellingBatch(s.batches[b].left - {w})])
      case BatchBroadcast(b, w) =>
        s.(batches := s.batches[b := BuyingBatch(s.batches[b].left - {w}, s.batches[b].uncounted + {w})])
      case BatchCountBuy(b, w) =>
        Counted(s.(batches := s.batches[b := BuyingBatch(s.batches[b].left, s.batches[b].uncounted - {w})]), w)
      case BatchReport(b) => s.(batches := s.batches[b := Reported])
  }

  /** The state after a whole run. */
  function Run(s: EngineState, events: seq<Event>): EngineState {
    if events == [] then s
    else
      var n := |events| - 1;
      Step(Run(s, events[..n]), events[n])
  }

  lemma OneStep(s: EngineState, x: Event)
    ensures Run(s, [x]) == Step(s, x)
  {
    assert [x][..0] == [];
    assert Run(s, [x][..0]) == s;
  }

  /** A run may be cut anywhere. */
  lemma {:induction false} RunConcat(s: EngineState, a: seq<Event>, b: seq<Event>)
    ensures Run(s, a + b) == Run(Run(s, a), b)
    decreases |b|
  {
    if b == [] {
      assert a + b == a;
    } else {
      var n := |b| - 1;
      assert (a + b)[..|a| + n] == a + b[..n];
      RunConcat(s, a, b[..n]);
    }
  }
}
