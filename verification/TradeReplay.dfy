/** Exactly-once accounting over every interleaving of live deliveries and replay passes. */
module TradeReplay {
  import opened Optional
  import opened RetailPosition
  import opened TradeMonitor

  /** What can happen to the monitor; a tick carries the heads the node named and whether it served the logs. */
  datatype Event =
    | Live(t: Trade)
    | Tick(startHead: Option<nat>, head: Option<nat>, served: bool)
    | MarkOurTx(tx: nat)
    | OurBuy(weth: nat, tokens: nat)
    | OurSell(tokens: nat, weth: nat)
    | Take
    | SetStart(block: nat)

  /** The chain's trades within a range of blocks, in order. */
  function Between(chain: seq<Trade>, from: nat, through: nat): seq<Trade> {
    if chain == [] then []
    else
      var n := |chain| - 1;
      Between(chain[..n], from, through) + if from <= chain[n].block <= through then [chain[n]] else []
  }

  /** What the node answers to the query a tick makes. */
  function Answer(chain: seq<Trade>, s: MonitorState, e: Event): Option<seq<Trade>>
    requires e.Tick?
  {
    var r := Ready(s, e.startHead);
    if e.served && r.cursor.Some? && e.head.Some? then Some(Between(chain, r.cursor.value, e.head.value)) else None
  }

  function Step(pool: set<nat>, chain: seq<Trade>, s: MonitorState, e: Event): MonitorState {
    match e
    case Live(t) => Consumed(pool, s, t)
    case Tick(startHead, head, _) => Ticked(pool, s, startHead, head, Answer(chain, s, e))
    case MarkOurTx(tx) => s.(ownTx := s.ownTx + {tx})
    case OurBuy(weth, tokens) => FillRecorded(s, weth, tokens)
    case OurSell(tokens, weth) => FillRecorded(s, 0 - weth, 0 - tokens)
    case Take => if s.queue == [] then s else s.(queue := s.queue[1..])
    case SetStart(block) => s.(startBlock := block)
  }

  function Run(pool: set<nat>, chain: seq<Trade>, s: MonitorState, events: seq<Event>): MonitorState {
    if events == [] then s
    else Step(pool, chain, Run(pool, chain, s, events[..|events| - 1]), events[|events| - 1])
  }

  /** A monitor driven by any schedule of deliveries, ticks and bookings. */
  method Drive(m: Monitor, chain: seq<Trade>, events: seq<Event>)
    modifies m
    ensures m.View() == Run(m.pool, chain, old(m.View()), events)
  {
    ghost var start := m.View();
    for i := 0 to |events|
      invariant m.View() == Run(m.pool, chain, start, events[..i])
    {
      assert events[..i + 1][..i] == events[..i];
      match events[i] {
        case Live(t) => var _ := m.ConsumeTrade(t);
        case Tick(startHead, head, served) =>
          var from := if m.cursor.Some? then m.cursor else RecoveryFrom(m.startBlock, startHead);
          assert from == Ready(m.View(), startHead).cursor;
          var logs := if served && from.Some? && head.Some? then Some(Between(chain, from.value, head.value)) else None;
          m.Tick(startHead, head, logs);
        case MarkOurTx(tx) => m.MarkOurTx(tx);
        case OurBuy(weth, tokens) => m.RecordOurBuy(weth, tokens);
        case OurSell(tokens, weth) => m.RecordOurSell(tokens, weth);
        case Take =>
          if m.queue != [] {
            var _ := m.TakeRetail();
          }
        case SetStart(block) => m.SetStartBlock(block);
      }
    }
    assert events[..|events|] == events;
  }

  // ---------------------------------------------------------------------
  // No log twice, and the books match the trades
  // ---------------------------------------------------------------------

  /** The marks are those of the processed logs, each processed once, and the books follow from them. */
  ghost predicate Accounted(s: MonitorState) {
    && (forall i :: 0 <= i < |s.processed| && s.processed[i].tx != 0 ==> Id(s.processed[i]) in s.seen)
    && (forall id :: id in s.seen ==> id.tx != 0 && exists i :: 0 <= i < |s.processed| && Id(s.processed[i]) == id)
    && (forall i, j :: 0 <= i < j < |s.processed| && s.processed[i].tx != 0 ==>
          Id(s.processed[i]) != Id(s.processed[j]))
    && s.position == PositionOf(s.retail)
    && s.ourTokens == Clamped(s.fills)
    && |s.queue| <= RETAIL_QUEUE
  }

  lemma ConsumedAccounted(pool: set<nat>, s: MonitorState, t: Trade)
    requires Accounted(s)
    ensures Accounted(Consumed(pool, s, t))
  {
    var u := Consumed(pool, s, t);
    if !Repeated(s, t) {
      var n := |s.processed|;
      assert u.processed == s.processed + [t];
      assert u.processed[n] == t;
      forall id | id in u.seen
        ensures id.tx != 0 && exists i :: 0 <= i < |u.processed| && Id(u.processed[i]) == id
      {
        if id in s.seen {
          var i :| 0 <= i < |s.processed| && Id(s.processed[i]) == id;
          assert u.processed[i] == s.processed[i];
        }
      }
      assert u.retail == s.retail || (u.retail == s.retail + [t] && u.retail[..|s.retail|] == s.retail);
    }
  }

  lemma {:induction false} ConsumedAllAccounted(pool: set<nat>, s: MonitorState, trades: seq<Trade>)
    requires Accounted(s)
    ensures Accounted(ConsumedAll(pool, s, trades))
  {
    if trades != [] {
      ConsumedAllAccounted(pool, s, trades[..|trades| - 1]);
      ConsumedAccounted(pool, ConsumedAll(pool, s, trades[..|trades| - 1]), trades[|trades| - 1]);
    }
  }

  lemma FillAccounted(s: MonitorState, weth: int, tokens: int)
    requires Accounted(s)
    ensures Accounted(FillRecorded(s, weth, tokens))
  {
    assert (s.fills + [tokens])[..|s.fills|] == s.fills;
  }

  lemma StepAccounted(pool: set<nat>, chain: seq<Trade>, s: MonitorState, e: Event)
    requires Accounted(s)
    ensures Accounted(Step(pool, chain, s, e))
  {
    match e {
      case Live(t) => ConsumedAccounted(pool, s, t);
      case Tick(startHead, _, _) =>
        var answer := Answer(chain, s, e);
        if answer.Some? {
          ConsumedAllAccounted(pool, Ready(s, startHead), answer.value);
        }
      case OurBuy(weth, tokens) => FillAccounted(s, weth, tokens);
      case OurSell(tokens, weth) => FillAccounted(s, 0 - weth, 0 - tokens);
      case _ =>
    }
  }

  lemma {:induction false} AlwaysAccounted(pool: set<nat>, chain: seq<Trade>, s: MonitorState, events: seq<Event>)
    requires Fresh(s)
    ensures Accounted(Run(pool, chain, s, events))
  {
    if events != [] {
      AlwaysAccounted(pool, chain, s, events[..|events| - 1]);
      StepAccounted(pool, chain, Run(pool, chain, s, events[..|events| - 1]), events[|events| - 1]);
    }
  }

  /** Whatever is delivered, in whatever order and however often, no log with a transaction hash is processed twice. */
  lemma NeverTwice(pool: set<nat>, chain: seq<Trade>, s: MonitorState, events: seq<Event>, i: nat, j: nat)
    requires Fresh(s)
    requires i < j < |Run(pool, chain, s, events).processed|
    requires Run(pool, chain, s, events).processed[i].tx != 0
    ensures Id(Run(pool, chain, s, events).processed[i]) != Id(Run(pool, chain, s, events).processed[j])
  {
    AlwaysAccounted(pool, chain, s, events);
  }

  /** After every run the net outside position is the best balance over a suffix of the
      outside trades, and our own holding the best over a suffix of our fills. */
  lemma PositionsAreBestSuffixes(pool: set<nat>, chain: seq<Trade>, s: MonitorState, events: seq<Event>)
    requires Fresh(s)
    ensures var r := Run(pool, chain, s, events);
            BestSuffix(Signed(r.retail), r.position.net) && BestSuffix(r.fills, r.ourTokens)
  {
    AlwaysAccounted(pool, chain, s, events);
    var r := Run(pool, chain, s, events);
    NetIsBestSuffix(r.retail);
    ClampedIsBestSuffix(r.fills);
  }

  // ---------------------------------------------------------------------
  // Nothing is missed behind the cursor
  // ---------------------------------------------------------------------

  /** Every log of the chain has a transaction hash and an identity of its own. */
  ghost predicate Chain(chain: seq<Trade>) {
    && (forall i :: 0 <= i < |chain| ==> chain[i].tx != 0)
    && (forall i, j :: 0 <= i < j < |chain| ==> Id(chain[i]) != Id(chain[j]))
  }

  /** The subscription delivers logs of the chain only. */
  predicate FromChain(chain: seq<Trade>, events: seq<Event>) {
    forall k :: 0 <= k < |events| && events[k].Live? ==> events[k].t in chain
  }

  lemma {:induction false} BetweenIs(chain: seq<Trade>, from: nat, through: nat)
    ensures forall t :: t in Between(chain, from, through) <==> t in chain && from <= t.block <= through
  {
    if chain != [] {
      var n := |chain| - 1;
      BetweenIs(chain[..n], from, through);
      assert chain == chain[..n] + [chain[n]];
    }
  }

  /** Only logs of the chain were processed, and every one in the blocks replayed so far was. */
  ghost predicate Covered(chain: seq<Trade>, s: MonitorState) {
    && (forall t :: t in s.processed ==> t in chain)
    && (s.cursor.Some? <==> s.began.Some?)
    && (s.cursor.Some? ==> forall t :: t in chain && s.began.value <= t.block < s.cursor.value ==> t in s.processed)
  }

  /** A chain log is skipped only because that very log was processed before. */
  lemma ConsumedCovers(pool: set<nat>, chain: seq<Trade>, s: MonitorState, t: Trade)
    requires Chain(chain) && Accounted(s) && Covered(chain, s) && t in chain
    ensures var u := Consumed(pool, s, t);
            && t in u.processed && Covered(chain, u) && s.processed <= u.processed
            && u.cursor == s.cursor && u.began == s.began
  {
    if Repeated(s, t) {
      var i :| 0 <= i < |s.processed| && Id(s.processed[i]) == Id(t);
      assert s.processed[i] in chain;
      var j :| 0 <= j < |chain| && chain[j] == s.processed[i];
      var k :| 0 <= k < |chain| && chain[k] == t;
      assert j == k;
    } else {
      assert Consumed(pool, s, t).processed == s.processed + [t];
    }
  }

  lemma OneMoreCovered(pool: set<nat>, chain: seq<Trade>, v: MonitorState, trades: seq<Trade>, n: nat)
    requires Chain(chain) && Accounted(v) && Covered(chain, v) && |trades| == n + 1 && trades[n] in chain
    requires forall t :: t in trades[..n] ==> t in v.processed
    ensures var u := Consumed(pool, v, trades[n]);
            && (forall t :: t in trades ==> t in u.processed)
            && Covered(chain, u) && Accounted(u) && v.processed <= u.processed
            && u.cursor == v.cursor && u.began == v.began && u.startBlock == v.startBlock
  {
    ConsumedAccounted(pool, v, trades[n]);
    ConsumedCovers(pool, chain, v, trades[n]);
    forall t | t in trades
      ensures t == trades[n] || t in trades[..n]
    {
    }
  }

  lemma {:induction false} ConsumedAllCovers(pool: set<nat>, chain: seq<Trade>, s: MonitorState, trades: seq<Trade>)
    requires Chain(chain) && Accounted(s) && Covered(chain, s) && forall t :: t in trades ==> t in chain
    ensures var u := ConsumedAll(pool, s, trades);
            && (forall t :: t in trades ==> t in u.processed)
            && Covered(chain, u) && Accounted(u) && s.processed <= u.processed
            && u.cursor == s.cursor && u.began == s.began
            && u.startBlock == s.startBlock
  {
    if trades != [] {
      var n := |trades| - 1;
      ConsumedAllCovers(pool, chain, s, trades[..n]);
      OneMoreCovered(pool, chain, ConsumedAll(pool, s, trades[..n]), trades, n);
    }
  }

  lemma TickCovers(pool: set<nat>, chain: seq<Trade>, s: MonitorState, e: Event)
    requires Chain(chain) && Accounted(s) && Covered(chain, s) && e.Tick?
    ensures Covered(chain, Step(pool, chain, s, e))
  {
    var r := Ready(s, e.startHead);
    assert Covered(chain, r);
    if e.served && r.cursor.Some? && e.head.Some? && r.cursor.value <= e.head.value {
      var logs := Between(chain, r.cursor.value, e.head.value);
      BetweenIs(chain, r.cursor.value, e.head.value);
      ConsumedAllCovers(pool, chain, r, logs);
    }
  }

  lemma {:induction false} AlwaysCovered(pool: set<nat>, chain: seq<Trade>, s: MonitorState, events: seq<Event>)
    requires Chain(chain) && FromChain(chain, events) && Fresh(s)
    ensures Covered(chain, Run(pool, chain, s, events))
  {
    if events != [] {
      var n := |events| - 1;
      AlwaysCovered(pool, chain, s, events[..n]);
      AlwaysAccounted(pool, chain, s, events[..n]);
      var r, e := Run(pool, chain, s, events[..n]), events[n];
      if e.Tick? {
        TickCovers(pool, chain, r, e);
      } else if e.Live? {
        ConsumedCovers(pool, chain, r, e.t);
      }
    }
  }

  /** Once the cursor is past a block, every trade from the start of recovery through that
      block was processed, exactly once, whatever the subscription dropped or repeated. */
  lemma ExactlyOnceBehindCursor(pool: set<nat>, chain: seq<Trade>, s: MonitorState, events: seq<Event>, t: Trade)
    requires Chain(chain) && FromChain(chain, events) && Fresh(s)
    requires var r := Run(pool, chain, s, events);
             t in chain && r.cursor.Some? && r.began.Some? && r.began.value <= t.block < r.cursor.value
    ensures multiset(Run(pool, chain, s, events).processed)[t] == 1
  {
    AlwaysCovered(pool, chain, s, events);
    AlwaysAccounted(pool, chain, s, events);
    var p := Run(pool, chain, s, events).processed;
    var i :| 0 <= i < |p| && p[i] == t;
    forall j | 0 <= j < |p| && j != i
      ensures p[j] != t
    {
      assert Id(p[if i < j then i else j]) != Id(p[if i < j then j else i]);
    }
    CountsOnce(p, i);
  }

  lemma CountsOnce(p: seq<Trade>, i: nat)
    requires i < |p| && forall j :: 0 <= j < |p| && j != i ==> p[j] != p[i]
    ensures multiset(p)[p[i]] == 1
  {
    assert p == p[..i] + ([p[i]] + p[i + 1..]);
    assert p[i] !in p[..i] && p[i] !in p[i + 1..];
  }

  // ---------------------------------------------------------------------
  // Where recovery begins
  // ---------------------------------------------------------------------

  lemma {:induction false} ConsumedAllKeepsStart(pool: set<nat>, s: MonitorState, trades: seq<Trade>)
    ensures var u := ConsumedAll(pool, s, trades);
            u.startBlock == s.startBlock && u.cursor == s.cursor && u.began == s.began
  {
    if trades != [] {
      ConsumedAllKeepsStart(pool, s, trades[..|trades| - 1]);
    }
  }

  /** Recovery has begun at the block, or is yet to begin there. */
  predicate BeginsAt(s: MonitorState, block: nat) {
    s.startBlock == block && (s.cursor.Some? <==> s.began.Some?) && (s.began.Some? ==> s.began.value == block)
  }

  lemma StepBeginsAt(pool: set<nat>, chain: seq<Trade>, s: MonitorState, e: Event, block: nat)
    requires BeginsAt(s, block) && 0 < block && !e.SetStart?
    ensures BeginsAt(Step(pool, chain, s, e), block)
  {
    if e.Tick? && Answer(chain, s, e).Some? {
      ConsumedAllKeepsStart(pool, Ready(s, e.startHead), Answer(chain, s, e).value);
    }
  }

  lemma {:induction false} RunBeginsAt(pool: set<nat>, chain: seq<Trade>, s: MonitorState, events: seq<Event>,
                                       block: nat)
    requires BeginsAt(s, block) && 0 < block && forall k :: 0 <= k < |events| ==> !events[k].SetStart?
    ensures BeginsAt(Run(pool, chain, s, events), block)
  {
    if events != [] {
      var n := |events| - 1;
      RunBeginsAt(pool, chain, s, events[..n], block);
      StepBeginsAt(pool, chain, Run(pool, chain, s, events[..n]), events[n], block);
    }
  }

  /** A start block set before recovery began is where it begins, whatever happens later
      short of setting another. */
  lemma RecoveryBeginsAtLaunch(pool: set<nat>, chain: seq<Trade>, s: MonitorState, block: nat, later: seq<Event>)
    requires s.cursor.None? && s.began.None? && 0 < block && forall k :: 0 <= k < |later| ==> !later[k].SetStart?
    ensures var r := Run(pool, chain, Step(pool, chain, s, SetStart(block)), later);
            r.began.Some? ==> r.began.value == block
  {
    RunBeginsAt(pool, chain, Step(pool, chain, s, SetStart(block)), later, block);
  }

  /** Once recovery has begun, setting a start block changes neither where it began nor what is still missing. */
  lemma LateStartIsIgnored(pool: set<nat>, chain: seq<Trade>, s: MonitorState, block: nat, e: Event)
    requires s.cursor.Some? && !e.SetStart?
    ensures var late := Step(pool, chain, s, SetStart(block));
            Step(pool, chain, late, e) == Step(pool, chain, s, e).(startBlock := block)
  {
    if e.Tick? && Answer(chain, s, e).Some? {
      StartDoesNotMatter(pool, s, Answer(chain, s, e).value, block);
    }
  }

  lemma {:induction false} StartDoesNotMatter(pool: set<nat>, s: MonitorState, trades: seq<Trade>, block: nat)
    ensures ConsumedAll(pool, s.(startBlock := block), trades) == ConsumedAll(pool, s, trades).(startBlock := block)
  {
    if trades != [] {
      StartDoesNotMatter(pool, s, trades[..|trades| - 1], block);
    }
  }
}
