/** The trade monitor: live deliveries and block replay feed one accounting,
    each log at most once. */
module TradeMonitor {
  import opened Optional
  import opened RetailPosition

  /** Room in the channel the engine reads outside trades from. */
  const RETAIL_QUEUE := 4096

  datatype LogId = LogId(tx: nat, index: nat)

  function Id(t: Trade): LogId {
    LogId(t.tx, t.index)
  }

  /** The monitor's fields, and for reasoning: the trades it processed, those it took
      for outside ones, its own fills, and the block its recovery began at. */
  datatype MonitorState = MonitorState(
    startBlock: nat,
    cursor: Option<nat>,
    seen: set<LogId>,
    ownTx: set<nat>,
    position: Position,
    ourWethSpent: int,
    ourTokens: nat,
    queue: seq<Trade>,
    processed: seq<Trade>,
    retail: seq<Trade>,
    fills: seq<int>,
    began: Option<nat>)

  // ---------------------------------------------------------------------
  // Accounting
  // ---------------------------------------------------------------------

  /** A trade is ours by its tagged transaction, or by either address. */
  predicate Ours(pool: set<nat>, ownTx: set<nat>, t: Trade) {
    t.tx in ownTx || t.recipient in pool || t.sender in pool
  }

  /** Books one trade; an outside one moves the position and is queued while there is room. */
  function Booked(pool: set<nat>, s: MonitorState, t: Trade): MonitorState {
    if Ours(pool, s.ownTx, t) then s.(processed := s.processed + [t])
    else
      s.(position := Traded(s.position, t),
         queue := if |s.queue| < RETAIL_QUEUE then s.queue + [t] else s.queue,
         processed := s.processed + [t],
         retail := s.retail + [t])
  }

  predicate Repeated(s: MonitorState, t: Trade) {
    t.tx != 0 && Id(t) in s.seen
  }

  function Consumed(pool: set<nat>, s: MonitorState, t: Trade): MonitorState {
    if Repeated(s, t) then s
    else Booked(pool, s.(seen := if t.tx != 0 then s.seen + {Id(t)} else s.seen), t)
  }

  function ConsumedAll(pool: set<nat>, s: MonitorState, trades: seq<Trade>): MonitorState {
    if trades == [] then s
    else Consumed(pool, ConsumedAll(pool, s, trades[..|trades| - 1]), trades[|trades| - 1])
  }

  function FillRecorded(s: MonitorState, weth: int, tokens: int): MonitorState {
    s.(ourWethSpent := s.ourWethSpent + weth,
       ourTokens := if s.ourTokens + tokens < 0 then 0 else s.ourTokens + tokens,
       fills := s.fills + [tokens])
  }

  // ---------------------------------------------------------------------
  // Recovery
  // ---------------------------------------------------------------------

  /** Where recovery may begin: the known launch block, or after the head seen first. */
  function RecoveryFrom(startBlock: nat, head: Option<nat>): Option<nat> {
    if startBlock > 0 then Some(startBlock)
    else if head.None? then None
    else Some(head.value + 1)
  }

  function Ready(s: MonitorState, startHead: Option<nat>): MonitorState {
    if s.cursor.Some? then s
    else s.(cursor := RecoveryFrom(s.startBlock, startHead), began := RecoveryFrom(s.startBlock, startHead))
  }

  /** One pass over the blocks since the cursor; an unanswered query leaves the cursor alone. */
  function Replayed(pool: set<nat>, s: MonitorState, head: Option<nat>, trades: Option<seq<Trade>>): MonitorState
    requires s.cursor.Some?
  {
    if head.None? || head.value < s.cursor.value || trades.None? then s
    else ConsumedAll(pool, s, trades.value).(cursor := Some(head.value + 1))
  }

  function Ticked(pool: set<nat>, s: MonitorState, startHead: Option<nat>, head: Option<nat>,
                  trades: Option<seq<Trade>>): MonitorState {
    var r := Ready(s, startHead);
    if r.cursor.None? then r else Replayed(pool, r, head, trades)
  }

  /** What a monitor is before it has seen anything. */
  predicate Fresh(s: MonitorState) {
    && s.cursor == None && s.began == None && s.seen == {}
    && s.position == FLAT && s.ourTokens == 0
    && s.processed == [] && s.retail == [] && s.fills == [] && s.queue == []
  }

  class Monitor {
    const pool: set<nat>
    var startBlock: nat
    var cursor: Option<nat>
    var seen: set<LogId>
    var ownTx: set<nat>
    var position: Position
    var ourWethSpent: int
    var ourTokens: nat
    var queue: seq<Trade>
    ghost var processed: seq<Trade>
    ghost var retail: seq<Trade>
    ghost var fills: seq<int>
    ghost var began: Option<nat>

    ghost function View(): MonitorState
      reads this
    {
      MonitorState(startBlock, cursor, seen, ownTx, position, ourWethSpent, ourTokens, queue, processed, retail, fills,
                   began)
    }

    constructor (wallets: set<nat>)
      ensures Fresh(View()) && pool == wallets && startBlock == 0 && ownTx == {} && ourWethSpent == 0
    {
      pool, startBlock, cursor, seen, ownTx := wallets, 0, None, {}, {};
      position, ourWethSpent, ourTokens, queue := FLAT, 0, 0, [];
      processed, retail, fills, began := [], [], [], None;
    }

    method SetStartBlock(block: nat)
      modifies this`startBlock
      ensures View() == old(View()).(startBlock := block)
    {
      startBlock := block;
    }

    method MarkOurTx(tx: nat)
      modifies this`ownTx
      ensures View() == old(View()).(ownTx := old(ownTx) + {tx})
    {
      ownTx := ownTx + {tx};
    }

    method RecordOurBuy(wethSpent: nat, tokensGot: nat)
      modifies this
      ensures View() == FillRecorded(old(View()), wethSpent, tokensGot)
    {
      ourWethSpent := ourWethSpent + wethSpent;
      ourTokens := ourTokens + tokensGot;
      fills := fills + [tokensGot];
    }

    method RecordOurSell(tokensSold: nat, wethGot: nat)
      modifies this
      ensures View() == FillRecorded(old(View()), 0 - wethGot, 0 - tokensSold)
    {
      ourWethSpent := ourWethSpent - wethGot;
      var left := ourTokens - tokensSold;
      if left < 0 {
        left := 0;
      }
      ourTokens := left;
      fills := fills + [0 - tokensSold];
    }

    method Classify(t: Trade) returns (ours: bool)
      ensures ours <==> Ours(pool, ownTx, t)
    {
      if t.tx in ownTx {
        return true;
      }
      return t.recipient in pool || t.sender in pool;
    }

    method OnTrade(t: Trade)
      modifies this
      ensures View() == Booked(pool, old(View()), t)
    {
      var price := PriceWeiPerToken(t.weth, t.tokens);
      var ours := Classify(t);
      processed := processed + [t];
      if ours {
        return;
      }
      if t.isBuy {
        position := Position(position.net + t.tokens, price, position.buyWeth + t.weth, position.buyTokens + t.tokens);
      } else if position.net - t.tokens <= 0 {
        position := Position(0, None, 0, 0);
      } else {
        position := position.(net := position.net - t.tokens);
      }
      retail := retail + [t];
      if |queue| < RETAIL_QUEUE {
        queue := queue + [t];
      }
    }

    method ConsumeTrade(t: Trade) returns (isNew: bool)
      modifies this
      ensures View() == Consumed(pool, old(View()), t)
      ensures isNew <==> !Repeated(old(View()), t)
    {
      if t.tx != 0 {
        if Id(t) in seen {
          return false;
        }
        seen := seen + {Id(t)};
      }
      OnTrade(t);
      return true;
    }

    method RecoveryStart(head: Option<nat>)
      requires cursor.None?
      modifies this`cursor, this`began
      ensures View() == Ready(old(View()), head)
    {
      if startBlock > 0 {
        cursor := Some(startBlock);
      } else if head.Some? {
        cursor := Some(head.value + 1);
      }
      began := cursor;
    }

    /** Replays the blocks from the cursor through the head; head and trades are the node's answers, if any. */
    method Replay(head: Option<nat>, trades: Option<seq<Trade>>)
      requires cursor.Some?
      modifies this
      ensures View() == Replayed(pool, old(View()), head, trades)
    {
      if head.None? {
        return;
      }
      if head.value < cursor.value {
        return;
      }
      if trades.None? {
        return;
      }
      var recovered := 0;
      ghost var start := View();
      for i := 0 to |trades.value|
        invariant View() == ConsumedAll(pool, start, trades.value[..i])
      {
        assert trades.value[..i + 1][..i] == trades.value[..i];
        var isNew := ConsumeTrade(trades.value[i]);
        if isNew {
          recovered := recovered + 1;
        }
      }
      assert trades.value[..|trades.value|] == trades.value;
      cursor := Some(head.value + 1);
    }

    method Tick(startHead: Option<nat>, head: Option<nat>, trades: Option<seq<Trade>>)
      modifies this
      ensures View() == Ticked(pool, old(View()), startHead, head, trades)
    {
      if cursor.None? {
        RecoveryStart(startHead);
        if cursor.None? {
          return;
        }
      }
      Replay(head, trades);
    }

    /** The engine takes the oldest queued outside trade. */
    method TakeRetail() returns (t: Trade)
      requires queue != []
      modifies this`queue
      ensures t == old(queue)[0] && View() == old(View()).(queue := old(queue)[1..])
    {
      t := queue[0];
      queue := queue[1..];
    }
  }
}
