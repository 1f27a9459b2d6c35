/** What the monitor's books say after any run: which trades are outside ones, what we spent,
    what was queued, and how far replay has caught up. */
module TradeBooks {
  import opened Optional
  import opened Decide
  import opened RetailPosition
  import opened TradeMonitor
  import opened TradeReplay

  // ---------------------------------------------------------------------
  // One log
  // ---------------------------------------------------------------------

  /** Neither side of the trade is a pool wallet, and its transaction is not tagged as ours. */
  predicate Outside(pool: set<nat>, ownTx: set<nat>, t: Trade) {
    t.tx !in ownTx && t.sender !in pool && t.recipient !in pool
  }

  /** A log is booked unless it has a hash and its identity was booked before; booked, it is
      counted as an outside trade exactly when it is one, and queued while there is room. */
  lemma LogIsBooked(pool: set<nat>, chain: seq<Trade>, s: MonitorState, t: Trade)
    requires Accounted(s)
    ensures var u := Step(pool, chain, s, Live(t));
            var known := t.tx != 0 && exists i :: 0 <= i < |s.processed| && Id(s.processed[i]) == Id(t);
            && u.processed == s.processed + (if known then [] else [t])
            && u.retail == s.retail + (if !known && Outside(pool, s.ownTx, t) then [t] else [])
            && u.queue == s.queue + (if !known && Outside(pool, s.ownTx, t) && |s.queue| < 4096 then [t] else [])
            && u.ownTx == s.ownTx && u.ourWethSpent == s.ourWethSpent && u.fills == s.fills && u.cursor == s.cursor
  {
    if t.tx != 0 && Id(t) in s.seen {
      var i :| 0 <= i < |s.processed| && Id(s.processed[i]) == Id(t);
    }
  }

  /** What was booked from a log before and after a whole pass keeps its place. */
  predicate Extends(s: MonitorState, u: MonitorState) {
    && s.processed <= u.processed && s.retail <= u.retail
    && u.ownTx == s.ownTx && u.ourWethSpent == s.ourWethSpent && u.fills == s.fills
  }

  lemma {:induction false} PassExtends(pool: set<nat>, s: MonitorState, trades: seq<Trade>)
    ensures Extends(s, ConsumedAll(pool, s, trades))
  {
    if trades != [] {
      PassExtends(pool, s, trades[..|trades| - 1]);
    }
  }

  // ---------------------------------------------------------------------
  // Outside trades and ours
  // ---------------------------------------------------------------------

  /** No outside trade has a pool wallet on either side, and whatever is booked but not outside is ours. */
  ghost predicate Sorted(pool: set<nat>, s: MonitorState) {
    && (forall t :: t in s.retail ==> t in s.processed && t.sender !in pool && t.recipient !in pool)
    && (forall t :: t in s.processed && t !in s.retail ==>
          t.tx in s.ownTx || t.sender in pool || t.recipient in pool)
  }

  lemma ConsumedSorted(pool: set<nat>, s: MonitorState, t: Trade)
    requires Sorted(pool, s)
    ensures Sorted(pool, Consumed(pool, s, t))
  {
  }

  lemma {:induction false} PassSorted(pool: set<nat>, s: MonitorState, trades: seq<Trade>)
    requires Sorted(pool, s)
    ensures Sorted(pool, ConsumedAll(pool, s, trades))
  {
    if trades != [] {
      PassSorted(pool, s, trades[..|trades| - 1]);
      ConsumedSorted(pool, ConsumedAll(pool, s, trades[..|trades| - 1]), trades[|trades| - 1]);
    }
  }

  /** Over every run outside trades and ours are told apart by address and tag. */
  lemma {:induction false} AlwaysSorted(pool: set<nat>, chain: seq<Trade>, s: MonitorState, events: seq<Event>)
    requires Fresh(s)
    ensures Sorted(pool, Run(pool, chain, s, events))
  {
    if events != [] {
      var n := |events| - 1;
      AlwaysSorted(pool, chain, s, events[..n]);
      var r, e := Run(pool, chain, s, events[..n]), events[n];
      if e.Live? {
        ConsumedSorted(pool, r, e.t);
      } else if e.Tick? && Answer(chain, r, e).Some? {
        PassSorted(pool, Ready(r, e.startHead), Answer(chain, r, e).value);
      }
    }
  }

  // ---------------------------------------------------------------------
  // Our own books
  // ---------------------------------------------------------------------

  /** What the bookings of a run spend, net of what their sells bring back. */
  function NetSpent(events: seq<Event>): int {
    if events == [] then 0
    else
      var n := |events| - 1;
      NetSpent(events[..n])
      + match events[n]
        case OurBuy(weth, _) => weth as int
        case OurSell(_, weth) => 0 - weth
        case _ => 0
  }

  /** The tokens they move, in order. */
  function TokensMoved(events: seq<Event>): seq<int> {
    if events == [] then []
    else
      var n := |events| - 1;
      TokensMoved(events[..n])
      + match events[n]
        case OurBuy(_, tokens) => [tokens as int]
        case OurSell(tokens, _) => [0 - tokens]
        case _ => []
  }

  /** The transactions they tag. */
  function Tagged(events: seq<Event>): set<nat> {
    set k | 0 <= k < |events| && events[k].MarkOurTx? :: events[k].tx
  }

  lemma StepBooks(pool: set<nat>, chain: seq<Trade>, s: MonitorState, e: Event)
    ensures var u := Step(pool, chain, s, e);
            && u.ourWethSpent - s.ourWethSpent == NetSpent([e])
            && u.fills == s.fills + TokensMoved([e])
            && u.ownTx == s.ownTx + Tagged([e])
  {
    assert [e][..0] == [];
    assert NetSpent([e][..0]) == 0 && TokensMoved([e][..0]) == [];
    assert Tagged([e]) == if e.MarkOurTx? then {e.tx} else {} by {
      assert [e][0] == e;
    }
    if e.Tick? && Answer(chain, s, e).Some? {
      PassExtends(pool, Ready(s, e.startHead), Answer(chain, s, e).value);
    }
  }

  /** After every run our net outlay, our fills and our tags are those booked, and nothing else. */
  lemma {:induction false} BooksAreBookings(pool: set<nat>, chain: seq<Trade>, s: MonitorState, events: seq<Event>)
    requires Fresh(s)
    ensures var r := Run(pool, chain, s, events);
            && r.ourWethSpent == s.ourWethSpent + NetSpent(events)
            && r.fills == TokensMoved(events)
            && r.ownTx == s.ownTx + Tagged(events)
  {
    if events != [] {
      var n := |events| - 1;
      var e := events[n];
      BooksAreBookings(pool, chain, s, events[..n]);
      StepBooks(pool, chain, Run(pool, chain, s, events[..n]), e);
      assert [e][..0] == [];
      assert NetSpent([e][..0]) == 0 && TokensMoved([e][..0]) == [];
      assert NetSpent(events) == NetSpent(events[..n]) + NetSpent([e]);
      assert TokensMoved(events) == TokensMoved(events[..n]) + TokensMoved([e]);
      assert Tagged(events) == Tagged(events[..n]) + Tagged([e]) by {
        assert [e][0] == e && events == events[..n] + [e];
        forall tx | tx in Tagged(events)
          ensures tx in Tagged(events[..n]) + Tagged([e])
        {
          var k :| 0 <= k < |events| && events[k].MarkOurTx? && events[k].tx == tx;
          assert if k < n then events[..n][k] == events[k] else k == n;
        }
        forall tx | tx in Tagged(events[..n])
          ensures tx in Tagged(events)
        {
          var k :| 0 <= k < n && events[..n][k].MarkOurTx? && events[..n][k].tx == tx;
          assert events[k] == events[..n][k];
        }
      }
    }
  }

  // ---------------------------------------------------------------------
  // The queue to the engine
  // ---------------------------------------------------------------------

  /** What the engine took from the queue during a run, in order. */
  function Taken(pool: set<nat>, chain: seq<Trade>, s: MonitorState, events: seq<Event>): seq<Trade> {
    if events == [] then []
    else
      var n := |events| - 1;
      var r := Run(pool, chain, s, events[..n]);
      Taken(pool, chain, s, events[..n]) + if events[n].Take? && r.queue != [] then [r.queue[0]] else []
  }

  /** The queue has room after every step. */
  ghost predicate NeverFull(pool: set<nat>, chain: seq<Trade>, s: MonitorState, events: seq<Event>) {
    forall k :: 0 <= k <= |events| ==> |Run(pool, chain, s, events[..k]).queue| < 4096
  }

  lemma {:induction false} PassQueues(pool: set<nat>, s: MonitorState, trades: seq<Trade>, front: seq<Trade>)
    requires front + s.queue == s.retail && |ConsumedAll(pool, s, trades).queue| < 4096
    ensures var u := ConsumedAll(pool, s, trades); front + u.queue == u.retail && |s.queue| <= |u.queue|
  {
    if trades != [] {
      var n := |trades| - 1;
      var v := ConsumedAll(pool, s, trades[..n]);
      PassQueues(pool, s, trades[..n], front);
    }
  }

  /** While it never fills up, what the engine took and what is still queued are all the
      outside trades, in the order they were booked. */
  lemma {:induction false} QueueLosesNothing(pool: set<nat>, chain: seq<Trade>, s: MonitorState, events: seq<Event>)
    requires Fresh(s) && NeverFull(pool, chain, s, events)
    ensures var r := Run(pool, chain, s, events); Taken(pool, chain, s, events) + r.queue == r.retail
  {
    if events != [] {
      var n := |events| - 1;
      var r, e, front := Run(pool, chain, s, events[..n]), events[n], Taken(pool, chain, s, events[..n]);
      forall k | 0 <= k <= n
        ensures |Run(pool, chain, s, events[..n][..k]).queue| < 4096
      {
        assert events[..n][..k] == events[..k];
      }
      QueueLosesNothing(pool, chain, s, events[..n]);
      assert events[..|events|] == events;
      StepQueues(pool, chain, r, e, front);
    }
  }

  lemma StepQueues(pool: set<nat>, chain: seq<Trade>, s: MonitorState, e: Event, front: seq<Trade>)
    requires front + s.queue == s.retail && |s.queue| < 4096 && |Step(pool, chain, s, e).queue| < 4096
    ensures var u := Step(pool, chain, s, e);
            front + (if e.Take? && s.queue != [] then [s.queue[0]] else []) + u.queue == u.retail
  {
    if e.Tick? && Answer(chain, s, e).Some? && Ready(s, e.startHead).cursor.value <= e.head.value {
      PassQueues(pool, Ready(s, e.startHead), Answer(chain, s, e).value, front);
    } else if e.Take? && s.queue != [] {
      assert s.queue == [s.queue[0]] + s.queue[1..];
    }
  }

  // ---------------------------------------------------------------------
  // Replay makes progress
  // ---------------------------------------------------------------------

  /** An answered pass moves the cursor just past the head, and nothing else ever moves it but the start of recovery. */
  lemma TickMovesCursor(pool: set<nat>, chain: seq<Trade>, s: MonitorState, startHead: Option<nat>,
                        head: Option<nat>, served: bool)
    ensures var u := Step(pool, chain, s, Tick(startHead, head, served));
            var from := if s.cursor.Some? then s.cursor
                        else if 0 < s.startBlock then Some(s.startBlock)
                        else if startHead.Some? then Some(startHead.value + 1)
                        else None;
            u.cursor == if from.Some? && served && head.Some? && from.value <= head.value then Some(head.value + 1)
                        else from
    ensures s.cursor.None? && s.startBlock == 0 ==>
              Step(pool, chain, s, Tick(startHead, head, served)).began
              == if startHead.Some? then Some(startHead.value + 1) else None
  {
    var e := Tick(startHead, head, served);
    if Answer(chain, s, e).Some? {
      ConsumedAllKeepsStart(pool, Ready(s, startHead), Answer(chain, s, e).value);
    }
  }

  /** After an answered pass at a head, every chain trade from the start of recovery through that head
      is booked, exactly once. */
  lemma PassCatchesUp(pool: set<nat>, chain: seq<Trade>, s: MonitorState, events: seq<Event>,
                      startHead: Option<nat>, head: nat, t: Trade)
    requires Chain(chain) && FromChain(chain, events) && Fresh(s) && t in chain
    requires var u := Run(pool, chain, s, events + [Tick(startHead, Some(head), true)]);
             u.began.Some? && u.began.value <= t.block <= head
    ensures multiset(Run(pool, chain, s, events + [Tick(startHead, Some(head), true)]).processed)[t] == 1
  {
    var last := Tick(startHead, Some(head), true);
    var all := events + [last];
    assert all[..|events|] == events;
    TickMovesCursor(pool, chain, Run(pool, chain, s, events), startHead, Some(head), true);
    AlwaysCovered(pool, chain, s, events);
    AlwaysCovered(pool, chain, s, all);
    ExactlyOnceBehindCursor(pool, chain, s, all, t);
  }

  /** A trade delivered live is booked by the end of the run, under its identity. */
  lemma {:induction false} DeliveredIsBooked(pool: set<nat>, chain: seq<Trade>, s: MonitorState, events: seq<Event>,
                                             k: nat)
    requires Fresh(s) && k < |events| && events[k].Live?
    ensures exists t :: t in Run(pool, chain, s, events).processed && Id(t) == Id(events[k].t)
  {
    var n := |events| - 1;
    var r, e := Run(pool, chain, s, events[..n]), events[n];
    if k < n {
      DeliveredIsBooked(pool, chain, s, events[..n], k);
      var t :| t in r.processed && Id(t) == Id(events[k].t);
      StepKeepsBooked(pool, chain, r, e, t);
    } else {
      AlwaysAccounted(pool, chain, s, events[..n]);
      DeliveryIsBooked(pool, chain, r, e.t);
    }
  }

  lemma DeliveryIsBooked(pool: set<nat>, chain: seq<Trade>, s: MonitorState, t: Trade)
    requires Accounted(s)
    ensures exists u :: u in Step(pool, chain, s, Live(t)).processed && Id(u) == Id(t)
  {
    var after := Step(pool, chain, s, Live(t));
    LogIsBooked(pool, chain, s, t);
    if after.processed == s.processed {
      var i :| 0 <= i < |s.processed| && Id(s.processed[i]) == Id(t);
      assert s.processed[i] in after.processed;
    } else {
      assert t in after.processed;
    }
  }

  lemma StepKeepsBooked(pool: set<nat>, chain: seq<Trade>, s: MonitorState, e: Event, t: Trade)
    requires t in s.processed
    ensures t in Step(pool, chain, s, e).processed
  {
    if e.Tick? && Answer(chain, s, e).Some? {
      PassExtends(pool, Ready(s, e.startHead), Answer(chain, s, e).value);
    }
  }

  // ---------------------------------------------------------------------
  // The last price paid
  // ---------------------------------------------------------------------

  /** While outsiders hold tokens, the last price is that of their latest buy since they were flat. */
  lemma {:induction false} LastPriceIsLatestBuy(trades: seq<Trade>)
    requires PositiveBuys(trades)
    ensures var buys, p := BuysSinceFlat(trades), PositionOf(trades);
            && (p.net == 0 ==> p.lastBuyPx == None)
            && (0 < p.net ==>
                  && buys != []
                  && p.lastBuyPx
                     == Some(Ratio(buys[|buys| - 1].weth * 1_000_000_000_000_000_000, buys[|buys| - 1].tokens)))
  {
    AverageIffHolding(trades);
    AverageCoversBuysSinceFlat(trades);
    if trades != [] {
      var n := |trades| - 1;
      LastPriceIsLatestBuy(trades[..n]);
      if PositionOf(trades).net > 0 {
        FlatAtSnoc(trades);
        SinceFlatSnoc(trades);
        if PositionOf(trades[..n]).net == 0 {
          assert trades[n].isBuy;
        }
      }
    }
  }
}
