/** When each call goes through and what it leaves, over every sequence of calls: the window a
    launch opens, who is refused and why, and where the ETH is. */
module RouterCalls {
  import opened Router
  import opened RouterSafety

  // ---------------------------------------------------------------------
  // Launches of a run
  // ---------------------------------------------------------------------

  predicate Committed(calls: seq<Call>, i: nat)
    requires i < |calls|
  {
    Try(Run(calls[..i]), calls[i]).Commit?
  }

  /** The call asks for a launch, and the official contracts would launch this curve. */
  predicate Launches(call: Call, curve: Address) {
    (call.Launch? || call.Atomic?) && call.reply.Launched? && call.reply.curve == curve
  }

  /** The run's i-th call launched the curve. */
  predicate Launched(calls: seq<Call>, curve: Address, i: nat)
    requires i < |calls|
  {
    Launches(calls[i], curve) && Committed(calls, i)
  }

  /** The run's latest launch of the curve that went through. */
  ghost predicate LatestLaunch(calls: seq<Call>, curve: Address, i: nat) {
    && i < |calls| && Launched(calls, curve, i)
    && forall j :: i < j < |calls| ==> !Launched(calls, curve, j)
  }

  lemma {:induction false} LoopKeepsLaunches(s: Storage, sender: Address, buys: seq<AtomicBuy>, replies: seq<BuyReply>)
    requires |replies| == |buys| && MakerBuys(s, sender, buys, replies).Commit?
    ensures MakerBuys(s, sender, buys, replies).state.launchBlock == s.launchBlock
    decreases |buys|
  {
    if buys != [] {
      LoopKeepsLaunches(MakerBuy(s, sender, buys[0], replies[0]).state, sender, buys[1..], replies[1..]);
    }
  }

  /** A launch that goes through records its block for its curve; nothing else touches a record. */
  lemma CallRecordsLaunch(s: Storage, call: Call, curve: Address)
    ensures Get(After(s, Try(s, call)).launchBlock, curve)
            == if Launches(call, curve) && Try(s, call).Commit? then call.l2Block else Get(s.launchBlock, curve)
  {
    if call.Atomic? {
      if Try(s, call).Commit? {
        AtomicRecordsLaunch(s, call);
      }
    }
  }

  lemma AtomicRecordsLaunch(s: Storage, call: Call)
    requires call.Atomic? && Try(s, call).Commit?
    ensures call.reply.Launched?
    ensures Try(s, call).state.launchBlock == s.launchBlock[call.reply.curve := call.l2Block]
  {
    LoopKeepsLaunches(LaunchOf(s, call).state, call.sender, BuysOf(call.fills), RepliesOf(call.fills));
  }

  lemma RecordStep(calls: seq<Call>, curve: Address, k: nat)
    requires k < |calls|
    ensures Get(Run(calls[..k + 1]).launchBlock, curve)
            == if Launched(calls, curve, k) then calls[k].l2Block else Get(Run(calls[..k]).launchBlock, curve)
  {
    assert calls[..k + 1][..k] == calls[..k];
    CallRecordsLaunch(Run(calls[..k]), calls[k], curve);
  }

  /** From a launch on, up to the next one, its block stays on record. */
  lemma {:induction false} RecordSince(calls: seq<Call>, curve: Address, i: nat, k: nat)
    requires i < k <= |calls| && Launched(calls, curve, i)
    requires forall j :: i < j < k ==> !Launched(calls, curve, j)
    ensures Get(Run(calls[..k]).launchBlock, curve) == calls[i].l2Block
    decreases k
  {
    RecordStep(calls, curve, k - 1);
    if i < k - 1 {
      RecordSince(calls, curve, i, k - 1);
    }
  }

  /** Before any launch there is none. */
  lemma {:induction false} NoRecordBefore(calls: seq<Call>, curve: Address, k: nat)
    requires k <= |calls| && forall j :: 0 <= j < k ==> !Launched(calls, curve, j)
    ensures Get(Run(calls[..k]).launchBlock, curve) == 0
  {
    if k > 0 {
      NoRecordBefore(calls, curve, k - 1);
      RecordStep(calls, curve, k - 1);
    }
  }

  /** Among the first k calls there is a latest launch of the curve, or there is none. */
  lemma {:induction false} LatestBelow(calls: seq<Call>, curve: Address, k: nat) returns (found: bool, i: nat)
    requires k <= |calls|
    ensures found ==> i < k && Launched(calls, curve, i) && forall j :: i < j < k ==> !Launched(calls, curve, j)
    ensures !found ==> forall j :: 0 <= j < k ==> !Launched(calls, curve, j)
  {
    if k == 0 {
      return false, 0;
    } else if Launched(calls, curve, k - 1) {
      return true, k - 1;
    }
    found, i := LatestBelow(calls, curve, k - 1);
  }

  /** After any run the block on record for a curve is that of its latest launch that went through. */
  lemma RecordIsLatest(calls: seq<Call>, curve: Address, i: nat)
    requires LatestLaunch(calls, curve, i)
    ensures Get(Run(calls).launchBlock, curve) == calls[i].l2Block
  {
    RecordSince(calls, curve, i, |calls|);
    assert calls[..|calls|] == calls;
  }

  // ---------------------------------------------------------------------
  // The two kinds of window
  // ---------------------------------------------------------------------

  /** ETH in the router that belongs to no deposit. */
  function Unowned(s: Storage): int {
    s.balance - s.totalDeposits
  }

  /** The curve takes the value, and whatever is free afterwards is accepted back. */
  predicate BuyWorks(s: Storage, value: nat, curve: Address, recipient: Address, reply: BuyReply, pay: PayReply) {
    && curve != 0 && recipient != 0 && value != 0 && reply.Bought?
    && (Unowned(s) + reply.paidBack == 0 || pay.Paid?)
  }

  lemma LatestIsOne(calls: seq<Call>, curve: Address, i: nat, j: nat)
    requires LatestLaunch(calls, curve, i) && LatestLaunch(calls, curve, j)
    ensures i == j
  {
  }

  /** The curve's latest launch in the run left a block on record, and this block is at most so many past it. */
  ghost predicate InWindow(calls: seq<Call>, curve: Address, maxBlocks: nat, l2Block: nat) {
    exists i: nat ::
      LatestLaunch(calls, curve, i) && 0 < calls[i].l2Block && l2Block <= calls[i].l2Block + maxBlocks
  }

  ghost predicate AfterWindow(calls: seq<Call>, curve: Address, maxBlocks: nat, l2Block: nat) {
    exists i: nat ::
      LatestLaunch(calls, curve, i) && 0 < calls[i].l2Block && calls[i].l2Block + maxBlocks < l2Block
  }

  /** The record a buy reads tells where it stands. */
  lemma RecordIsWindow(calls: seq<Call>, curve: Address, maxBlocks: nat, l2Block: nat)
    ensures var lb := Get(Run(calls).launchBlock, curve);
            && (InWindow(calls, curve, maxBlocks, l2Block) <==> 0 < lb && l2Block <= lb + maxBlocks)
            && (AfterWindow(calls, curve, maxBlocks, l2Block) <==> 0 < lb && lb + maxBlocks < l2Block)
  {
    var found, latest := LatestBelow(calls, curve, |calls|);
    assert calls[..|calls|] == calls;
    if found {
      assert LatestLaunch(calls, curve, latest);
      RecordIsLatest(calls, curve, latest);
      forall j: nat | LatestLaunch(calls, curve, j)
        ensures j == latest
      {
        LatestIsOne(calls, curve, latest, j);
      }
    } else {
      NoRecordBefore(calls, curve, |calls|);
    }
  }

  /** A window buy after any run goes through exactly when the curve's latest launch here has a block on record, that
      block is no more than the window ago, and the buy itself works; it then returns the curve's tokens. */
  lemma BuysOnlyInWindow(calls: seq<Call>, call: Call)
    requires forall i :: 0 <= i < |calls| ==> FromAccount(calls[i])
    requires call.BuyAfterLaunch?
    ensures var s := Run(calls);
            && (Try(s, call).Commit? <==>
                  && InWindow(calls, call.curve, call.maxBlocks, call.l2Block)
                  && BuyWorks(s, call.value, call.curve, call.recipient, call.buyReply, call.pay))
            && (Try(s, call).Commit? ==> Try(s, call).tokensOut == [call.buyReply.tokensOut])
  {
    AlwaysSolvent(calls);
    RecordIsWindow(calls, call.curve, call.maxBlocks, call.l2Block);
  }

  /** Why a window buy is refused before it is tried: the window is over, or no launch of the curve is on record. */
  lemma WindowRefusals(calls: seq<Call>, call: Call)
    requires call.BuyAfterLaunch?
    ensures var o := Try(Run(calls), call);
            && (o == Revert(Expired) <==> AfterWindow(calls, call.curve, call.maxBlocks, call.l2Block))
            && (o == Revert(NotLaunchedHere) <==>
                  && !AfterWindow(calls, call.curve, call.maxBlocks, call.l2Block)
                  && !InWindow(calls, call.curve, call.maxBlocks, call.l2Block))
  {
    RecordIsWindow(calls, call.curve, call.maxBlocks, call.l2Block);
  }

  /** A buy with an absolute deadline goes through exactly up to that block. */
  lemma BuysOnlyByDeadline(s: Storage, call: Call)
    requires Solvent(s) && call.BuyWithin?
    ensures Try(s, call).Commit? <==>
            && call.l2Block <= call.maxL2Block
            && BuyWorks(s, call.value, call.curve, call.recipient, call.buyReply, call.pay)
    ensures Try(s, call).Commit? ==> Try(s, call).tokensOut == [call.buyReply.tokensOut]
    ensures Try(s, call) == Revert(Expired) <==> call.maxL2Block < call.l2Block
  {
  }

  // ---------------------------------------------------------------------
  // The other calls
  // ---------------------------------------------------------------------

  /** The launch is well-formed, funded, and the official contracts carry it out. */
  predicate LaunchWorks(call: Call)
    requires call.Launch? || call.Atomic?
  {
    && call.terms.recipient != 0 && call.factory != 0 && call.terms.quoteIn <= call.value
    && (call.terms.quoteIn == 0 || call.officialRouter != 0) && call.reply.Launched?
  }

  /** A launch goes through exactly when it works and what is free afterwards is accepted back;
      it returns the tokens of its own buy, none without one. */
  lemma LaunchGoesThrough(s: Storage, call: Call)
    requires Solvent(s) && call.Launch?
    ensures Try(s, call).Commit? <==>
            LaunchWorks(call) && (Unowned(s) + call.reply.paidBack == 0 || call.pay.Paid?)
    ensures Try(s, call).Commit? ==>
              Try(s, call).tokensOut == [if call.terms.quoteIn == 0 then 0 else call.reply.tokensOut]
  {
  }

  /** A deposit goes through exactly when it names an operator and a value, and no other operator holds a
      balance of the sender; it then parks the value under that operator and moves nothing else. */
  lemma DepositGoesThrough(s: Storage, call: Call, w: Address)
    requires call.Deposit?
    ensures Try(s, call).Commit? <==>
            && call.operator != 0 && call.value != 0
            && (Get(s.operatorOf, call.sender) in {0, call.operator} || Get(s.deposits, call.sender) == 0)
    ensures var t := After(s, Try(s, call));
            Try(s, call).Commit? ==>
              && Get(t.operatorOf, call.sender) == call.operator
              && Get(t.deposits, call.sender) == Get(s.deposits, call.sender) + call.value
              && t.totalDeposits == s.totalDeposits + call.value && t.balance == s.balance + call.value
              && (w != call.sender ==>
                    Get(t.deposits, w) == Get(s.deposits, w) && Get(t.operatorOf, w) == Get(s.operatorOf, w))
    ensures call.operator == 0 ==> Try(s, call) == Revert(ZeroAddress)
    ensures call.operator != 0 && call.value == 0 ==> Try(s, call) == Revert(ZeroValue)
    ensures call.operator != 0 && call.value != 0 && Try(s, call).Revert? ==> Try(s, call) == Revert(OperatorLocked)
  {
  }

  /** A withdrawal goes through exactly when there is something to take, no more than is parked, and the sender
      accepts it; it then pays exactly that out of the router and off the deposit. */
  lemma WithdrawGoesThrough(s: Storage, call: Call, w: Address)
    requires Solvent(s) && call.Withdraw?
    ensures var have := Get(s.deposits, call.sender);
            var take := if call.amount == 0 then have else call.amount;
            var t := After(s, Try(s, call));
            && (Try(s, call).Commit? <==> 0 < take <= have && call.pay.Paid?)
            && (Try(s, call).Commit? ==>
                  && Get(t.deposits, call.sender) == have - take && t.totalDeposits == s.totalDeposits - take
                  && t.balance == s.balance - take + call.pay.back && t.operatorOf == s.operatorOf
                  && (w != call.sender ==> Get(t.deposits, w) == Get(s.deposits, w)))
            && (take == 0 ==> Try(s, call) == Revert(ZeroValue))
            && (have < take ==> Try(s, call) == Revert(InsufficientDeposit))
            && (0 < take <= have && call.pay.PayFails? ==> Try(s, call) == Revert(RefundFailed))
  {
    var have := Get(s.deposits, call.sender);
    TotalUpdate(s.deposits, call.sender, 0);
  }

  /** An atomic launch goes through exactly when the launch works, every maker buy passes its own checks with
      the earlier ones applied, and what is free afterwards is accepted back. */
  lemma AtomicCallGoesThrough(s: Storage, call: Call)
    requires Solvent(s) && call.Atomic? && call.sender != 0
    ensures Try(s, call).Commit? <==>
            && LaunchWorks(call)
            && (forall i :: 0 <= i < |call.fills| ==> BuyPasses(s, call.sender, call.fills, i))
            && (Unowned(s) + call.reply.paidBack == 0 || call.pay.Paid?)
    ensures Try(s, call).Commit? ==>
              && |Try(s, call).tokensOut| == |call.fills|
              && forall i :: 0 <= i < |call.fills| && call.fills[i].1.Bought? ==>
                   Try(s, call).tokensOut[i] == call.fills[i].1.tokensOut
  {
    LaunchPart(s, call);
    var o := LaunchOf(s, call);
    if o.Commit? {
      AtomicGoesThrough(o.state, call.sender, call.fills);
      forall i | 0 <= i < |call.fills|
        ensures BuyPasses(o.state, call.sender, call.fills, i) == BuyPasses(s, call.sender, call.fills, i)
      {
      }
      LoopPart(s, o.state, call);
    }
  }

  lemma LaunchPart(s: Storage, call: Call)
    requires Solvent(s) && call.Atomic?
    ensures var o := LaunchOf(s, call);
            && (o.Commit? <==> LaunchWorks(call))
            && (o.Revert? ==> Try(s, call).Revert?)
            && (o.Commit? ==>
                  && Solvent(o.state) && o.state.deposits == s.deposits && o.state.operatorOf == s.operatorOf
                  && Unowned(o.state) == Unowned(s) + call.reply.paidBack)
  {
  }

  lemma RefundPart(s: Storage, pay: PayReply)
    requires s.totalDeposits <= s.balance
    ensures RefundFree(s, pay).Commit? <==> s.balance == s.totalDeposits || pay.Paid?
  {
  }

  lemma LoopPart(s: Storage, t: Storage, call: Call)
    requires call.Atomic? && call.sender != 0 && LaunchOf(s, call).Commit? && t == LaunchOf(s, call).state && Solvent(t)
    ensures var m := MakerBuys(t, call.sender, BuysOf(call.fills), RepliesOf(call.fills));
            && (Try(s, call).Commit? <==> m.Commit? && (Unowned(t) == 0 || call.pay.Paid?))
            && (Try(s, call).Commit? ==>
                  && |Try(s, call).tokensOut| == |call.fills|
                  && forall i :: 0 <= i < |call.fills| && call.fills[i].1.Bought? ==>
                       Try(s, call).tokensOut[i] == call.fills[i].1.tokensOut)
  {
    var m := MakerBuys(t, call.sender, BuysOf(call.fills), RepliesOf(call.fills));
    MakerBuysSolvent(t, call.sender, BuysOf(call.fills), RepliesOf(call.fills));
    AtomicIsLoopThenRefund(s, call);
    if m.Commit? {
      RefundPart(m.state, call.pay);
      LoopTokens(t, call.sender, call.fills);
    }
  }

  lemma AtomicIsLoopThenRefund(s: Storage, call: Call)
    requires call.Atomic? && LaunchOf(s, call).Commit?
    ensures var m := MakerBuys(LaunchOf(s, call).state, call.sender, BuysOf(call.fills), RepliesOf(call.fills));
            && (Try(s, call).Commit? <==> m.Commit? && RefundFree(m.state, call.pay).Commit?)
            && (Try(s, call).Commit? ==> Try(s, call).tokensOut == m.tokensOut)
  {
  }

  /** The maker buys return what the curve gave each, in order. */
  lemma {:induction false} LoopTokens(s: Storage, sender: Address, fills: seq<(AtomicBuy, BuyReply)>)
    requires MakerBuys(s, sender, BuysOf(fills), RepliesOf(fills)).Commit?
    ensures var out := MakerBuys(s, sender, BuysOf(fills), RepliesOf(fills)).tokensOut;
            && |out| == |fills|
            && forall i :: 0 <= i < |fills| && fills[i].1.Bought? ==> out[i] == fills[i].1.tokensOut
    decreases |fills|
  {
    if fills != [] {
      var t := MakerBuy(s, sender, fills[0].0, fills[0].1).state;
      assert BuysOf(fills)[1..] == BuysOf(fills[1..]) && RepliesOf(fills)[1..] == RepliesOf(fills[1..]);
      LoopTokens(t, sender, fills[1..]);
      assert forall i :: 0 < i < |fills| ==> fills[i] == fills[1..][i - 1];
    }
  }

  // ---------------------------------------------------------------------
  // Where the ETH is
  // ---------------------------------------------------------------------

  /** ETH a call that goes through leaves with nobody's name on it: what arrives unasked, and what the
      recipient of a payment sends straight back. */
  function LeftOver(s: Storage, call: Call): int {
    match call
    case Deposit(_, _, _) => Unowned(s)
    case Withdraw(_, _, pay) => Unowned(s) + if pay.Paid? then pay.back else 0
    case Receive(value) => Unowned(s) + value
    case BuyAfterLaunch(_, _, _, _, _, reply, pay) =>
      if reply.Bought? && Unowned(s) + reply.paidBack == 0 then 0 else if pay.Paid? then pay.back else 0
    case BuyWithin(_, _, _, _, _, reply, pay) =>
      if reply.Bought? && Unowned(s) + reply.paidBack == 0 then 0 else if pay.Paid? then pay.back else 0
    case Launch(_, _, _, _, reply, _, pay) =>
      if reply.Launched? && Unowned(s) + reply.paidBack == 0 then 0 else if pay.Paid? then pay.back else 0
    case Atomic(_, _, _, _, _, reply, _, _, pay) =>
      if reply.Launched? && Unowned(s) + reply.paidBack == 0 then 0 else if pay.Paid? then pay.back else 0
  }

  /** After every call the router holds exactly its deposits and what the call left over. */
  lemma CallAccountsForEth(s: Storage, call: Call)
    requires Solvent(s) && FromAccount(call) && Try(s, call).Commit?
    ensures Unowned(Try(s, call).state) == LeftOver(s, call)
  {
    if call.Atomic? {
      AtomicAccountsForEth(s, call);
    } else if call.Launch? || call.BuyAfterLaunch? || call.BuyWithin? {
      RefundEmptiesFree(s, call);
    }
  }

  lemma AtomicAccountsForEth(s: Storage, call: Call)
    requires Solvent(s) && call.Atomic? && call.sender != 0 && Try(s, call).Commit?
    ensures Unowned(Try(s, call).state) == LeftOver(s, call)
  {
    LaunchPart(s, call);
    var t := LaunchOf(s, call).state;
    MakerBuysSolvent(t, call.sender, BuysOf(call.fills), RepliesOf(call.fills));
    AtomicRefunds(s, call);
  }

  lemma AtomicRefunds(s: Storage, call: Call)
    requires call.Atomic? && LaunchOf(s, call).Commit? && Try(s, call).Commit?
    ensures var m := MakerBuys(LaunchOf(s, call).state, call.sender, BuysOf(call.fills), RepliesOf(call.fills));
            && m.Commit?
            && (Unowned(m.state) == 0 || call.pay.Paid?)
            && Unowned(Try(s, call).state) == if Unowned(m.state) == 0 then 0 else call.pay.back
  {
  }
}
