/** What every sequence of router calls keeps: solvency, per-wallet accounting
    of the atomic launch, and custody of each deposit under its operator. */
module RouterSafety {
  import opened Router

  // ---------------------------------------------------------------------
  // Sums over a ledger
  // ---------------------------------------------------------------------

  ghost function Total(m: map<Address, nat>): nat
    decreases |m|
  {
    if m == map[] then 0
    else
      var k :| k in m;
      m[k] + Total(m - {k})
  }

  lemma {:induction false} TotalWithout(m: map<Address, nat>, k: Address)
    requires k in m
    ensures Total(m) == m[k] + Total(m - {k})
    decreases |m|
  {
    var j :| j in m && Total(m) == m[j] + Total(m - {j});
    if j != k {
      TotalWithout(m - {j}, k);
      TotalWithout(m - {k}, j);
      assert m - {j} - {k} == m - {k} - {j};
    }
  }

  lemma TotalUpdate(m: map<Address, nat>, k: Address, v: nat)
    ensures Total(m[k := v]) == Total(m) - Get(m, k) + v
  {
    TotalWithout(m[k := v], k);
    if k in m {
      TotalWithout(m, k);
      assert m[k := v] - {k} == m - {k};
    } else {
      assert m[k := v] - {k} == m;
    }
  }

  // ---------------------------------------------------------------------
  // Calls and runs
  // ---------------------------------------------------------------------

  datatype Call =
    | Deposit(sender: Address, value: nat, operator: Address)
    | Withdraw(sender: Address, amount: nat, pay: PayReply)
    | Launch(value: nat, terms: Terms, factory: Address, officialRouter: Address, reply: LaunchReply, l2Block: nat,
             pay: PayReply)
    | BuyAfterLaunch(value: nat, curve: Address, maxBlocks: nat, recipient: Address, l2Block: nat, buyReply: BuyReply,
                     pay: PayReply)
    | BuyWithin(value: nat, curve: Address, maxL2Block: nat, recipient: Address, l2Block: nat, buyReply: BuyReply,
                pay: PayReply)
    | Atomic(sender: Address, value: nat, terms: Terms, factory: Address, officialRouter: Address, reply: LaunchReply,
             l2Block: nat,
             fills: seq<(AtomicBuy, BuyReply)>, pay: PayReply)
    | Receive(value: nat)

  function BuysOf(fills: seq<(AtomicBuy, BuyReply)>): (b: seq<AtomicBuy>)
    ensures |b| == |fills|
  {
    seq(|fills|, i requires 0 <= i < |fills| => fills[i].0)
  }

  function RepliesOf(fills: seq<(AtomicBuy, BuyReply)>): (r: seq<BuyReply>)
    ensures |r| == |fills|
  {
    seq(|fills|, i requires 0 <= i < |fills| => fills[i].1)
  }

  function Try(s: Storage, call: Call): Outcome {
    match call
    case Deposit(sender, value, operator) => DepositSpec(s, sender, value, operator)
    case Withdraw(sender, amount, pay) => WithdrawSpec(s, sender, amount, pay)
    case Launch(value, terms, factory, official, reply, l2, pay) =>
      LaunchSpec(s, value, terms, factory, official, reply, l2, pay)
    case BuyAfterLaunch(value, curve, blocks, recipient, l2, reply, pay) =>
      BuyAfterLaunchSpec(s, value, curve, blocks, recipient, l2, reply, pay)
    case BuyWithin(value, curve, maxBlock, recipient, l2, reply, pay) =>
      BuyWithinSpec(s, value, curve, maxBlock, recipient, l2, reply, pay)
    case Atomic(sender, value, terms, factory, official, reply, l2, fills, pay) =>
      AtomicSpec(s, sender, value, terms, factory, official, reply, l2, BuysOf(fills), RepliesOf(fills), pay)
    case Receive(value) => Commit(s.(balance := s.balance + value), [])
  }

  /** The storage after a whole sequence of calls from deployment. */
  function Run(calls: seq<Call>): Storage {
    if calls == [] then INITIAL
    else
      var s := Run(calls[..|calls| - 1]);
      After(s, Try(s, calls[|calls| - 1]))
  }

  // ---------------------------------------------------------------------
  // Solvency
  // ---------------------------------------------------------------------

  /** The books add up, the ETH is there, and parked ETH always has an operator. */
  ghost predicate Solvent(s: Storage) {
    && s.totalDeposits == Total(s.deposits) <= s.balance
    && forall w :: Get(s.operatorOf, w) == 0 ==> Get(s.deposits, w) == 0
  }

  lemma DepositSolvent(s: Storage, sender: Address, value: nat, operator: Address)
    requires Solvent(s)
    ensures Solvent(After(s, DepositSpec(s, sender, value, operator)))
  {
    var t := After(s, DepositSpec(s, sender, value, operator));
    TotalUpdate(s.deposits, sender, Get(s.deposits, sender) + value);
    forall w | Get(t.operatorOf, w) == 0
      ensures Get(t.deposits, w) == 0
    {
      assert Get(s.operatorOf, w) == 0;
    }
  }

  lemma WithdrawSolvent(s: Storage, sender: Address, amount: nat, pay: PayReply)
    requires Solvent(s)
    ensures Solvent(After(s, WithdrawSpec(s, sender, amount, pay)))
    ensures WithdrawSpec(s, sender, amount, pay) != Revert(Panic)
  {
    var take := if amount == 0 then Get(s.deposits, sender) else amount;
    if take <= Get(s.deposits, sender) {
      TotalUpdate(s.deposits, sender, Get(s.deposits, sender) - take);
    }
  }

  lemma MakerBuySolvent(s: Storage, sender: Address, b: AtomicBuy, reply: BuyReply)
    requires Solvent(s) && sender != 0
    ensures MakerBuy(s, sender, b, reply) != Revert(Panic)
    ensures var o := MakerBuy(s, sender, b, reply);
            o.Commit? ==> Solvent(o.state) && o.state.balance - o.state.totalDeposits == s.balance - s.totalDeposits
  {
    if b.quoteIn <= Get(s.deposits, b.wallet) {
      TotalUpdate(s.deposits, b.wallet, Get(s.deposits, b.wallet) - b.quoteIn);
      if reply.Bought? {
        TotalUpdate(s.deposits, b.wallet, Get(s.deposits, b.wallet) - b.quoteIn + reply.paidBack);
      }
    }
  }

  lemma {:induction false} MakerBuysSolvent(s: Storage, sender: Address, buys: seq<AtomicBuy>, replies: seq<BuyReply>)
    requires Solvent(s) && sender != 0 && |replies| == |buys|
    ensures MakerBuys(s, sender, buys, replies) != Revert(Panic)
    ensures var o := MakerBuys(s, sender, buys, replies);
            o.Commit? ==> Solvent(o.state) && o.state.balance - o.state.totalDeposits == s.balance - s.totalDeposits
    decreases |buys|
  {
    if buys != [] {
      MakerBuySolvent(s, sender, buys[0], replies[0]);
      var o := MakerBuy(s, sender, buys[0], replies[0]);
      if o.Commit? {
        MakerBuysSolvent(o.state, sender, buys[1..], replies[1..]);
      }
    }
  }

  /** Transactions come from accounts; the zero address sends none. */
  predicate FromAccount(call: Call) {
    (call.Deposit? || call.Withdraw? || call.Atomic?) ==> call.sender != 0
  }

  /** A call that is no deposit, withdrawal or atomic launch leaves the ledger alone and the balance covering it. */
  lemma PassThrough(s: Storage, call: Call)
    requires s.totalDeposits <= s.balance
    requires !call.Deposit? && !call.Withdraw? && !call.Atomic?
    ensures Try(s, call) != Revert(Panic)
    ensures var t := After(s, Try(s, call));
            && t.deposits == s.deposits && t.operatorOf == s.operatorOf
            && t.totalDeposits == s.totalDeposits <= t.balance
  {
  }

  function LaunchOf(s: Storage, call: Call): Outcome
    requires call.Atomic?
  {
    LaunchStep(s.(balance := s.balance + call.value), call.terms, call.factory, call.officialRouter, call.value,
               call.reply, call.l2Block)
  }

  lemma LaunchStage(s: Storage, call: Call)
    requires call.Atomic? && s.totalDeposits <= s.balance
    ensures var o := LaunchOf(s, call);
            && o != Revert(Panic)
            && (o.Commit? ==>
                  && o.state.deposits == s.deposits && o.state.operatorOf == s.operatorOf
                  && o.state.totalDeposits == s.totalDeposits <= o.state.balance)
  {
  }

  lemma RefundStage(s: Storage, pay: PayReply)
    ensures s.totalDeposits <= s.balance ==> RefundFree(s, pay) != Revert(Panic)
    ensures var r := RefundFree(s, pay);
            r.Commit? ==> r.state == s.(balance := r.state.balance) && s.totalDeposits <= r.state.balance
  {
  }

  /** An atomic launch runs its maker buys on an untouched ledger, then refunds what is free. */
  lemma AtomicStages(s: Storage, call: Call)
    requires call.Atomic? && s.totalDeposits <= s.balance
    ensures var o := LaunchOf(s, call);
            && o != Revert(Panic)
            && (o.Revert? ==> Try(s, call) == o)
            && (o.Commit? ==>
                  && o.state.deposits == s.deposits && o.state.operatorOf == s.operatorOf
                  && o.state.totalDeposits == s.totalDeposits <= o.state.balance
                  && (var m := MakerBuys(o.state, call.sender, BuysOf(call.fills), RepliesOf(call.fills));
                      && (m.Revert? ==> Try(s, call) == m)
                      && (m.Commit? && m.state.totalDeposits <= m.state.balance ==> Try(s, call) != Revert(Panic))
                      && (Try(s, call).Commit? ==>
                            && m.Commit?
                            && Try(s, call).state == m.state.(balance := Try(s, call).state.balance)
                            && m.state.totalDeposits <= Try(s, call).state.balance)))
  {
    LaunchStage(s, call);
    var o := LaunchOf(s, call);
    if o.Commit? {
      var m := MakerBuys(o.state, call.sender, BuysOf(call.fills), RepliesOf(call.fills));
      if m.Commit? {
        RefundStage(m.state, call.pay);
      }
    }
  }

  lemma AtomicSolvent(s: Storage, call: Call)
    requires Solvent(s) && call.Atomic? && call.sender != 0
    ensures Solvent(After(s, Try(s, call))) && Try(s, call) != Revert(Panic)
  {
    AtomicStages(s, call);
    var o := LaunchOf(s, call);
    if o.Commit? {
      MakerBuysSolvent(o.state, call.sender, BuysOf(call.fills), RepliesOf(call.fills));
    }
  }

  /** Every call keeps the router solvent, and none of its checked arithmetic or own transfers can fail. */
  lemma CallKeepsSolvent(s: Storage, call: Call)
    requires Solvent(s) && FromAccount(call)
    ensures Solvent(After(s, Try(s, call)))
    ensures Try(s, call) != Revert(Panic)
  {
    match call {
      case Deposit(sender, value, operator) => DepositSolvent(s, sender, value, operator);
      case Withdraw(sender, amount, pay) => WithdrawSolvent(s, sender, amount, pay);
      case Atomic(_, _, _, _, _, _, _, _, _) => AtomicSolvent(s, call);
      case _ => PassThrough(s, call);
    }
  }

  /** Over every sequence of calls the deposits add up to totalDeposits, and the balance covers them. */
  lemma {:induction false} AlwaysSolvent(calls: seq<Call>)
    requires forall i :: 0 <= i < |calls| ==> FromAccount(calls[i])
    ensures Solvent(Run(calls))
  {
    if calls == [] {
      assert Total(map[]) == 0;
    } else {
      AlwaysSolvent(calls[..|calls| - 1]);
      CallKeepsSolvent(Run(calls[..|calls| - 1]), calls[|calls| - 1]);
    }
  }

  predicate RefundsAtEnd(call: Call) {
    call.Launch? || call.BuyAfterLaunch? || call.BuyWithin? || call.Atomic?
  }

  lemma RefundEmptiesFree(s: Storage, call: Call)
    requires RefundsAtEnd(call) && Try(s, call).Commit?
    ensures var t := Try(s, call).state;
            t.balance == t.totalDeposits || (call.pay.Paid? && t.balance == t.totalDeposits + call.pay.back)
  {
  }

  /** A successful launch or buy, after any run, leaves exactly the deposits in the
      router, plus at most what the refunded caller sent straight back. */
  lemma NothingStranded(calls: seq<Call>, call: Call)
    requires forall i :: 0 <= i < |calls| ==> FromAccount(calls[i])
    requires FromAccount(call) && RefundsAtEnd(call) && Try(Run(calls), call).Commit?
    ensures var t := Try(Run(calls), call).state;
            t.balance == Total(t.deposits) || (call.pay.Paid? && t.balance == Total(t.deposits) + call.pay.back)
  {
    var s := Run(calls);
    AlwaysSolvent(calls);
    CallKeepsSolvent(s, call);
    RefundEmptiesFree(s, call);
  }

  // ---------------------------------------------------------------------
  // The atomic loop, wallet by wallet
  // ---------------------------------------------------------------------

  /** The quotes a list of maker buys takes from one wallet. */
  function Quotes(fills: seq<(AtomicBuy, BuyReply)>, w: Address): nat {
    if fills == [] then 0
    else (if fills[0].0.wallet == w then fills[0].0.quoteIn else 0) + Quotes(fills[1..], w)
  }

  /** The refunds a list of maker buys credits to one wallet. */
  function Refunds(fills: seq<(AtomicBuy, BuyReply)>, w: Address): nat {
    if fills == [] then 0
    else (if fills[0].0.wallet == w && fills[0].1.Bought? then fills[0].1.paidBack else 0) + Refunds(fills[1..], w)
  }

  /** Each wallet's deposit moves by exactly its quotes and refunds, however often it appears. */
  lemma {:induction false} AtomicMovesDeposits(s: Storage, sender: Address, fills: seq<(AtomicBuy, BuyReply)>,
                                               w: Address)
    requires MakerBuys(s, sender, BuysOf(fills), RepliesOf(fills)).Commit?
    ensures var t := MakerBuys(s, sender, BuysOf(fills), RepliesOf(fills)).state;
            && Get(t.deposits, w) == Get(s.deposits, w) - Quotes(fills, w) + Refunds(fills, w)
            && t.operatorOf == s.operatorOf
            && t.launchBlock == s.launchBlock
    ensures Get(s.operatorOf, w) != sender ==> Quotes(fills, w) == Refunds(fills, w) == 0
    decreases |fills|
  {
    if fills != [] {
      var t := MakerBuy(s, sender, fills[0].0, fills[0].1).state;
      assert BuysOf(fills)[1..] == BuysOf(fills[1..]) && RepliesOf(fills)[1..] == RepliesOf(fills[1..]);
      AtomicMovesDeposits(t, sender, fills[1..], w);
    }
  }

  /** Whether the i-th buy of a list passes all of its own checks, with the earlier ones applied. */
  predicate BuyPasses(s: Storage, sender: Address, fills: seq<(AtomicBuy, BuyReply)>, i: nat)
    requires i < |fills|
  {
    var b := fills[i].0;
    && b.wallet != 0 && b.quoteIn != 0 && Get(s.operatorOf, b.wallet) == sender && fills[i].1.Bought?
    && b.quoteIn <= Get(s.deposits, b.wallet) - Quotes(fills[..i], b.wallet) + Refunds(fills[..i], b.wallet)
  }

  lemma PassesShift(s: Storage, t: Storage, sender: Address, fills: seq<(AtomicBuy, BuyReply)>, i: nat)
    requires 0 < i < |fills| && MakerBuy(s, sender, fills[0].0, fills[0].1).Commit?
    requires t == MakerBuy(s, sender, fills[0].0, fills[0].1).state
    ensures BuyPasses(s, sender, fills, i) <==> BuyPasses(t, sender, fills[1..], i - 1)
  {
    assert fills[..i][1..] == fills[1..][..i - 1];
    assert fills[..i][0] == fills[0];
    assert fills[1..][i - 1] == fills[i];
  }

  /** The atomic loop goes through exactly when every buy passes its own checks. */
  lemma {:induction false} AtomicGoesThrough(s: Storage, sender: Address, fills: seq<(AtomicBuy, BuyReply)>)
    requires Solvent(s) && sender != 0
    ensures MakerBuys(s, sender, BuysOf(fills), RepliesOf(fills)).Commit?
            <==> forall i :: 0 <= i < |fills| ==> BuyPasses(s, sender, fills, i)
    decreases |fills|
  {
    if fills != [] {
      var o := MakerBuy(s, sender, fills[0].0, fills[0].1);
      assert fills[..0] == [];
      MakerBuySolvent(s, sender, fills[0].0, fills[0].1);
      assert o.Commit? <==> BuyPasses(s, sender, fills, 0);
      if o.Commit? {
        assert BuysOf(fills)[1..] == BuysOf(fills[1..]) && RepliesOf(fills)[1..] == RepliesOf(fills[1..]);
        AtomicGoesThrough(o.state, sender, fills[1..]);
        forall i | 0 < i < |fills|
          ensures BuyPasses(s, sender, fills, i) <==> BuyPasses(o.state, sender, fills[1..], i - 1)
        {
          PassesShift(s, o.state, sender, fills, i);
        }
        if forall i :: 0 <= i < |fills| - 1 ==> BuyPasses(o.state, sender, fills[1..], i) {
          forall i | 0 <= i < |fills|
            ensures BuyPasses(s, sender, fills, i)
          {
            assert 0 < i ==> BuyPasses(o.state, sender, fills[1..], i - 1);
          }
        } else {
          var i :| 0 <= i < |fills| - 1 && !BuyPasses(o.state, sender, fills[1..], i);
          assert !BuyPasses(s, sender, fills, i + 1);
        }
      }
    }
  }

  // ---------------------------------------------------------------------
  // Custody
  // ---------------------------------------------------------------------

  /** What one call adds to a wallet's account with one operator: parked and
      refunded ETH counts in, withdrawn and spent ETH counts out. Atomic entries
      are booked under the caller, not under whoever is registered. */
  function Entry(s: Storage, call: Call, w: Address, op: Address): int {
    if Try(s, call).Revert? then 0
    else match call
      case Deposit(sender, value, operator) => if sender == w && operator == op then value else 0
      case Withdraw(sender, amount, _) =>
        if sender == w && op == Get(s.operatorOf, w) then -(if amount == 0 then Get(s.deposits, w) else amount) else 0
      case Atomic(sender, _, _, _, _, _, _, fills, _) =>
        if sender == op then Refunds(fills, w) - Quotes(fills, w) else 0
      case _ => 0
  }

  /** A wallet's account with one operator after a sequence of calls. */
  function Account(calls: seq<Call>, w: Address, op: Address): int {
    if calls == [] then 0
    else
      var n := |calls| - 1;
      Account(calls[..n], w, op) + Entry(Run(calls[..n]), calls[n], w, op)
  }

  /** The account of the registered operator is the whole deposit; any other account is empty. */
  function Custody(s: Storage, w: Address, op: Address): nat {
    if op == Get(s.operatorOf, w) then Get(s.deposits, w) else 0
  }

  /** What a successful atomic launch does to one wallet. */
  lemma AtomicEffect(s: Storage, call: Call, w: Address)
    requires call.Atomic? && s.totalDeposits <= s.balance && Try(s, call).Commit?
    ensures var t := Try(s, call).state;
            && Get(t.deposits, w) == Get(s.deposits, w) - Quotes(call.fills, w) + Refunds(call.fills, w)
            && t.operatorOf == s.operatorOf
    ensures Get(s.operatorOf, w) != call.sender ==> Quotes(call.fills, w) == Refunds(call.fills, w) == 0
  {
    AtomicStages(s, call);
    var o := LaunchOf(s, call);
    AtomicMovesDeposits(o.state, call.sender, call.fills, w);
  }

  lemma CallKeepsCustody(s: Storage, call: Call, w: Address, op: Address)
    requires Solvent(s) && FromAccount(call) && op != 0
    ensures Custody(After(s, Try(s, call)), w, op) == Custody(s, w, op) + Entry(s, call, w, op)
  {
    match call {
      case Deposit(_, _, _) =>
      case Withdraw(_, _, _) =>
      case Atomic(_, _, _, _, _, _, _, _, _) =>
        if Try(s, call).Commit? {
          AtomicEffect(s, call, w);
        }
      case _ => PassThrough(s, call);
    }
  }

  /** Over every run each wei of a deposit was parked, or refunded from a deposit
      parked, under the operator now registered, and no other operator has any. */
  lemma {:induction false} CustodyHolds(calls: seq<Call>, w: Address, op: Address)
    requires forall i :: 0 <= i < |calls| ==> FromAccount(calls[i])
    requires op != 0
    ensures Account(calls, w, op) == Custody(Run(calls), w, op)
  {
    if calls != [] {
      var n := |calls| - 1;
      CustodyHolds(calls[..n], w, op);
      AlwaysSolvent(calls[..n]);
      CallKeepsCustody(Run(calls[..n]), calls[n], w, op);
    }
  }

  /** A registered operator changes only by the wallet's own deposit call, at zero balance. */
  lemma OperatorChangesAtZero(s: Storage, call: Call, w: Address)
    requires Solvent(s) && FromAccount(call)
    requires Get(After(s, Try(s, call)).operatorOf, w) != Get(s.operatorOf, w)
    ensures call.Deposit? && call.sender == w && Get(s.deposits, w) == 0
  {
    match call {
      case Deposit(_, _, _) =>
      case Withdraw(_, _, _) =>
      case Atomic(_, _, _, _, _, _, _, _, _) =>
        if Try(s, call).Commit? {
          AtomicEffect(s, call, w);
        }
      case _ => PassThrough(s, call);
    }
  }

  /** A deposit falls only by its wallet's own withdrawal or by its operator's atomic launch. */
  lemma OnlyOwnerOrOperatorSpends(s: Storage, call: Call, w: Address)
    requires Solvent(s)
    requires Get(After(s, Try(s, call)).deposits, w) < Get(s.deposits, w)
    ensures (call.Withdraw? && call.sender == w) || (call.Atomic? && call.sender == Get(s.operatorOf, w))
  {
    match call {
      case Deposit(_, _, _) =>
      case Withdraw(_, _, _) =>
      case Atomic(_, _, _, _, _, _, _, _, _) =>
        if Try(s, call).Commit? {
          AtomicEffect(s, call, w);
        }
      case _ => PassThrough(s, call);
    }
  }
}
