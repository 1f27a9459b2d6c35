/** The same calls when whoever is called parks ETH through `deposit`, the one entry point
    without a re-entrancy guard, before it answers. */
module RouterCallbacks {
  import opened Router
  import opened RouterSafety

  // ---------------------------------------------------------------------
  // Deposits made inside a call
  // ---------------------------------------------------------------------

  /** A deposit made while a call of the router's is out. */
  datatype Park = Park(sender: Address, value: nat, operator: Address)

  function Parked(s: Storage, parks: seq<Park>): (t: Storage)
    ensures s.balance <= t.balance
    decreases |parks|
  {
    if parks == [] then s
    else Parked(After(s, DepositSpec(s, parks[0].sender, parks[0].value, parks[0].operator)), parks[1..])
  }

  /** ETH those deposits bring in; a refused one brings none. */
  function Amount(s: Storage, parks: seq<Park>): nat {
    Parked(s, parks).balance - s.balance
  }

  /** What is parked while the launch or buy, each maker buy, and the refund or payment is out. */
  datatype Inside = Inside(step: seq<Park>, fills: seq<seq<Park>>, payment: seq<Park>)

  function First(parks: seq<seq<Park>>): seq<Park> {
    if parks == [] then [] else parks[0]
  }

  function Later(parks: seq<seq<Park>>): seq<seq<Park>> {
    if parks == [] then [] else parks[1..]
  }

  /** A maker buy up to the curve's answer: the quote is debited and paid out. */
  function Debited(s: Storage, sender: Address, b: AtomicBuy, reply: BuyReply): Outcome {
    MakerBuy(s, sender, b, if reply.Bought? then Bought(reply.tokensOut, 0) else reply)
  }

  /** One maker buy: the refund is measured as a balance difference, so what was parked
      meanwhile is credited to the maker once more. */
  function MakerBuyWith(s: Storage, sender: Address, b: AtomicBuy, reply: BuyReply, parks: seq<Park>): Outcome {
    match Debited(s, sender, b, reply)
    case Revert(e) => Revert(e)
    case Commit(t, out) =>
      var u := Parked(t, parks);
      var back := if reply.Bought? then reply.paidBack else 0;
      var refund := u.balance + back - t.balance;
      Commit(u.(deposits := u.deposits[b.wallet := Get(u.deposits, b.wallet) + refund],
                totalDeposits := u.totalDeposits + refund,
                balance := u.balance + back), out)
  }

  function MakerBuysWith(s: Storage, sender: Address, fills: seq<(AtomicBuy, BuyReply)>,
                         parks: seq<seq<Park>>): Outcome
    decreases |fills|
  {
    if fills == [] then Commit(s, [])
    else
      match MakerBuyWith(s, sender, fills[0].0, fills[0].1, First(parks))
      case Revert(e) => Revert(e)
      case Commit(t, got) =>
        match MakerBuysWith(t, sender, fills[1..], Later(parks))
        case Revert(e) => Revert(e)
        case Commit(u, rest) => Commit(u, got + rest)
  }

  /** ETH parked during the maker buys that go through. */
  function ParkedByFills(s: Storage, sender: Address, fills: seq<(AtomicBuy, BuyReply)>, parks: seq<seq<Park>>): nat
    decreases |fills|
  {
    if fills == [] then 0
    else
      var o := MakerBuyWith(s, sender, fills[0].0, fills[0].1, First(parks));
      if o.Revert? then 0
      else
        Amount(Debited(s, sender, fills[0].0, fills[0].1).state, First(parks))
        + ParkedByFills(o.state, sender, fills[1..], Later(parks))
  }

  function ParkedAfter(step: Outcome, parks: seq<Park>): Outcome {
    if step.Revert? then step else Commit(Parked(step.state, parks), step.tokensOut)
  }

  /** The refund of what is free, with deposits made while it is paid out. */
  function RefundedWith(step: Outcome, pay: PayReply, parks: seq<Park>): Outcome {
    if step.Commit? && step.state.balance == step.state.totalDeposits then Refunded(step, pay)
    else ParkedAfter(Refunded(step, pay), parks)
  }

  /** A launch or a buy, up to the refund at its end. */
  function StepOf(s: Storage, call: Call): Outcome
    requires call.Launch? || call.BuyAfterLaunch? || call.BuyWithin?
  {
    match call
    case Launch(value, terms, factory, official, reply, l2, _) =>
      LaunchStep(s.(balance := s.balance + value), terms, factory, official, value, reply, l2)
    case BuyAfterLaunch(value, curve, blocks, recipient, l2, reply, _) =>
      BuyAfterLaunchStep(s, value, curve, blocks, recipient, l2, reply)
    case BuyWithin(value, curve, maxBlock, recipient, l2, reply, _) =>
      BuyWithinStep(s, value, curve, maxBlock, recipient, l2, reply)
  }

  function TryWith(s: Storage, call: Call, inside: Inside): Outcome {
    match call
    case Deposit(_, _, _) => Try(s, call)
    case Receive(_) => Try(s, call)
    case Withdraw(_, _, _) => ParkedAfter(Try(s, call), inside.payment)
    case Launch(_, _, _, _, _, _, pay) => RefundedWith(ParkedAfter(StepOf(s, call), inside.step), pay, inside.payment)
    case BuyAfterLaunch(_, _, _, _, _, _, pay) =>
      RefundedWith(ParkedAfter(StepOf(s, call), inside.step), pay, inside.payment)
    case BuyWithin(_, _, _, _, _, _, pay) =>
      RefundedWith(ParkedAfter(StepOf(s, call), inside.step), pay, inside.payment)
    case Atomic(_, _, _, _, _, _, _, _, _) =>
      var launched := LaunchedWith(s, call, inside);
      if launched.Revert? then launched
      else
        RefundedWith(MakerBuysWith(launched.state, call.sender, call.fills, inside.fills), call.pay, inside.payment)
  }

  /** An atomic call up to its first maker buy. */
  function LaunchedWith(s: Storage, call: Call, inside: Inside): Outcome
    requires call.Atomic?
  {
    ParkedAfter(LaunchOf(s, call), inside.step)
  }

  /** The storage after a whole sequence of calls, each with its own deposits inside. */
  function RunWith(calls: seq<(Call, Inside)>): Storage {
    if calls == [] then INITIAL
    else
      var s, last := RunWith(calls[..|calls| - 1]), calls[|calls| - 1];
      After(s, TryWith(s, last.0, last.1))
  }

  // ---------------------------------------------------------------------
  // With nothing parked inside, these are the calls themselves
  // ---------------------------------------------------------------------

  lemma {:induction false} MakerBuysUndisturbed(s: Storage, sender: Address, fills: seq<(AtomicBuy, BuyReply)>)
    ensures MakerBuysWith(s, sender, fills, []) == MakerBuys(s, sender, BuysOf(fills), RepliesOf(fills))
    decreases |fills|
  {
    if fills != [] {
      MakerBuyUndisturbed(s, sender, fills[0].0, fills[0].1);
      var o := MakerBuy(s, sender, fills[0].0, fills[0].1);
      assert BuysOf(fills)[1..] == BuysOf(fills[1..]) && RepliesOf(fills)[1..] == RepliesOf(fills[1..]);
      if o.Commit? {
        MakerBuysUndisturbed(o.state, sender, fills[1..]);
      }
    }
  }

  lemma MakerBuyUndisturbed(s: Storage, sender: Address, b: AtomicBuy, reply: BuyReply)
    ensures MakerBuyWith(s, sender, b, reply, []) == MakerBuy(s, sender, b, reply)
  {
    var left := Get(s.deposits, b.wallet) - b.quoteIn;
    if 0 <= left && reply.Bought? {
      assert s.deposits[b.wallet := left][b.wallet := left + reply.paidBack]
          == s.deposits[b.wallet := left + reply.paidBack];
    }
  }

  lemma Undisturbed(s: Storage, call: Call)
    ensures TryWith(s, call, Inside([], [], [])) == Try(s, call)
  {
    if call.Atomic? {
      var o := LaunchOf(s, call);
      if o.Commit? {
        MakerBuysUndisturbed(o.state, call.sender, call.fills);
        RefundUndisturbed(MakerBuysWith(o.state, call.sender, call.fills, []), call.pay);
      }
    } else if call.Launch? || call.BuyAfterLaunch? || call.BuyWithin? {
      TryIsStepThenRefund(s, call, Inside([], [], []));
      RefundUndisturbed(StepOf(s, call), call.pay);
    }
  }

  lemma RefundUndisturbed(step: Outcome, pay: PayReply)
    ensures ParkedAfter(step, []) == step && RefundedWith(step, pay, []) == Refunded(step, pay)
  {
  }

  /** With a deposit that is accepted made inside it, a maker buy credits its value to the depositor and to the
      maker both, and to totalDeposits twice, while the balance rises by it once. */
  lemma ParkedIsCreditedTwice(s: Storage, sender: Address, b: AtomicBuy, reply: BuyReply, park: Park, w: Address)
    requires MakerBuy(s, sender, b, reply).Commit? && park.operator != 0 && park.value != 0
    requires Get(s.operatorOf, park.sender) in {0, park.operator}
    ensures var plain, o := MakerBuy(s, sender, b, reply).state, MakerBuyWith(s, sender, b, reply, [park]);
            && o.Commit? && o.tokensOut == MakerBuy(s, sender, b, reply).tokensOut
            && Get(o.state.deposits, w)
               == Get(plain.deposits, w) + (if w == park.sender then park.value else 0)
                  + (if w == b.wallet then park.value else 0)
            && o.state.totalDeposits == plain.totalDeposits + 2 * park.value
            && o.state.balance == plain.balance + park.value
            && Get(o.state.operatorOf, park.sender) == park.operator
  {
    var t := Debited(s, sender, b, reply).state;
    assert [park][1..] == [];
    assert Parked(t, [park]) == Parked(After(t, DepositSpec(t, park.sender, park.value, park.operator)), []);
  }

  /** What one accepted deposit adds, to its depositor alone. */
  predicate CreditedOnce(plain: Storage, t: Storage, park: Park, w: Address) {
    && Get(t.deposits, w) == Get(plain.deposits, w) + (if w == park.sender then park.value else 0)
    && t.totalDeposits == plain.totalDeposits + park.value
    && Get(t.operatorOf, park.sender) == park.operator
  }

  predicate Acceptable(s: Storage, park: Park) {
    park.operator != 0 && park.value != 0 && Get(s.operatorOf, park.sender) in {0, park.operator}
  }

  /** Made inside a withdrawal's payment, it is credited once. */
  lemma ParkedInPaymentIsCreditedOnce(s: Storage, call: Call, park: Park, w: Address)
    requires call.Withdraw? && Acceptable(s, park) && Try(s, call).Commit?
    ensures var o := TryWith(s, call, Inside([], [], [park]));
            o.Commit? && CreditedOnce(Try(s, call).state, o.state, park, w)
  {
    OneParkIsDeposit(Try(s, call).state, park);
  }

  /** So it is inside a launch or a buy of the caller's own. */
  lemma ParkedInBuyIsCreditedOnce(s: Storage, call: Call, park: Park, w: Address)
    requires (call.Launch? || call.BuyAfterLaunch? || call.BuyWithin?) && Acceptable(s, park) && Try(s, call).Commit?
    ensures var o := TryWith(s, call, Inside([park], [], []));
            o.Commit? && CreditedOnce(Try(s, call).state, o.state, park, w)
  {
    TryIsStepThenRefund(s, call, Inside([park], [], []));
    StepThenParked(StepOf(s, call), call.pay, park, w);
  }

  lemma TryIsStepThenRefund(s: Storage, call: Call, inside: Inside)
    requires call.Launch? || call.BuyAfterLaunch? || call.BuyWithin?
    ensures Try(s, call) == Refunded(StepOf(s, call), call.pay)
    ensures TryWith(s, call, inside)
            == RefundedWith(ParkedAfter(StepOf(s, call), inside.step), call.pay, inside.payment)
    ensures StepOf(s, call).Commit? ==> StepOf(s, call).state.operatorOf == s.operatorOf
  {
  }

  lemma StepThenParked(step: Outcome, pay: PayReply, park: Park, w: Address)
    requires step.Commit? && Acceptable(step.state, park) && Refunded(step, pay).Commit?
    ensures var o := RefundedWith(ParkedAfter(step, [park]), pay, []);
            o.Commit? && CreditedOnce(Refunded(step, pay).state, o.state, park, w)
  {
    OneParkIsDeposit(step.state, park);
    RefundUndisturbed(ParkedAfter(step, [park]), pay);
    RefundIgnoresPark(step.state, step.tokensOut, pay, park);
  }

  lemma RefundThenParked(step: Outcome, pay: PayReply, park: Park, w: Address)
    requires step.Commit? && Free(step.state) != 0 && Acceptable(step.state, park) && Refunded(step, pay).Commit?
    ensures var o := RefundedWith(step, pay, [park]);
            o.Commit? && CreditedOnce(Refunded(step, pay).state, o.state, park, w)
  {
    OneParkIsDeposit(Refunded(step, pay).state, park);
  }

  /** And inside the refund at its end, when there is one. */
  lemma ParkedInRefundIsCreditedOnce(s: Storage, call: Call, park: Park, w: Address)
    requires (call.Launch? || call.BuyAfterLaunch? || call.BuyWithin?) && Try(s, call).Commit?
    requires Free(StepOf(s, call).state) != 0 && Acceptable(s, park)
    ensures var o := TryWith(s, call, Inside([], [], [park]));
            o.Commit? && CreditedOnce(Try(s, call).state, o.state, park, w)
  {
    TryIsStepThenRefund(s, call, Inside([], [], [park]));
    RefundUndisturbed(StepOf(s, call), call.pay);
    RefundThenParked(StepOf(s, call), call.pay, park, w);
  }

  /** A deposit moves the refund of what is free neither up nor down. */
  lemma RefundIgnoresPark(s: Storage, out: seq<nat>, pay: PayReply, park: Park)
    requires Acceptable(s, park) && Refunded(Commit(s, out), pay).Commit?
    ensures var t := After(s, DepositSpec(s, park.sender, park.value, park.operator));
            var plain, o := Refunded(Commit(s, out), pay), Refunded(Commit(t, out), pay);
            && o.Commit?
            && o.state.deposits == t.deposits && o.state.operatorOf == t.operatorOf
            && o.state.totalDeposits == plain.state.totalDeposits + park.value
            && plain.state.deposits == s.deposits && plain.state.totalDeposits == s.totalDeposits
  {
  }

  lemma OneParkIsDeposit(s: Storage, park: Park)
    ensures Parked(s, [park]) == After(s, DepositSpec(s, park.sender, park.value, park.operator))
  {
    var t := After(s, DepositSpec(s, park.sender, park.value, park.operator));
    assert [park][1..] == [] && Parked(t, []) == t;
  }

  // ---------------------------------------------------------------------
  // The books, and what is free
  // ---------------------------------------------------------------------

  /** The books add up and parked ETH has an operator, whether or not the ETH is there. */
  ghost predicate Books(s: Storage) {
    && s.totalDeposits == Total(s.deposits)
    && forall w :: Get(s.operatorOf, w) == 0 ==> Get(s.deposits, w) == 0
  }

  /** ETH beyond the deposits; negative when they are not covered. */
  function Free(s: Storage): int {
    s.balance - s.totalDeposits
  }

  lemma SolventIsCovered(s: Storage)
    ensures Solvent(s) <==> Books(s) && 0 <= Free(s)
  {
  }

  lemma DepositKeeps(s: Storage, sender: Address, value: nat, operator: Address)
    requires Books(s)
    ensures var t := After(s, DepositSpec(s, sender, value, operator)); Books(t) && Free(t) == Free(s)
  {
    var t := After(s, DepositSpec(s, sender, value, operator));
    TotalUpdate(s.deposits, sender, Get(s.deposits, sender) + value);
    forall w | Get(t.operatorOf, w) == 0
      ensures Get(t.deposits, w) == 0
    {
      assert Get(s.operatorOf, w) == 0;
    }
  }

  /** Whatever is parked inside a call keeps the books, frees nothing and takes no operator away. */
  lemma {:induction false} ParkedKeeps(s: Storage, parks: seq<Park>, w: Address)
    requires Books(s)
    ensures var t := Parked(s, parks);
            Books(t) && Free(t) == Free(s) && (Get(s.operatorOf, w) != 0 ==> Get(t.operatorOf, w) != 0)
    decreases |parks|
  {
    if parks != [] {
      DepositKeeps(s, parks[0].sender, parks[0].value, parks[0].operator);
      ParkedKeeps(After(s, DepositSpec(s, parks[0].sender, parks[0].value, parks[0].operator)), parks[1..], w);
    }
  }

  lemma DebitedKeeps(s: Storage, sender: Address, b: AtomicBuy, reply: BuyReply)
    requires Books(s) && sender != 0
    ensures var o := Debited(s, sender, b, reply);
            && (o == Revert(Panic) ==> Free(s) < 0)
            && (o.Commit? ==> Books(o.state) && Free(o.state) == Free(s) && Get(o.state.operatorOf, b.wallet) != 0)
  {
    if b.quoteIn <= Get(s.deposits, b.wallet) {
      TotalUpdate(s.deposits, b.wallet, Get(s.deposits, b.wallet) - b.quoteIn);
    }
  }

  /** A maker buy keeps the books, and takes out of what is free exactly what was parked inside it. */
  lemma MakerBuyWithKeeps(s: Storage, sender: Address, b: AtomicBuy, reply: BuyReply, parks: seq<Park>)
    requires Books(s) && sender != 0
    ensures var o := MakerBuyWith(s, sender, b, reply, parks);
            && (o == Revert(Panic) ==> Free(s) < 0)
            && (o.Commit? ==>
                  && Debited(s, sender, b, reply).Commit? && Books(o.state)
                  && Free(o.state) == Free(s) - Amount(Debited(s, sender, b, reply).state, parks))
  {
    DebitedKeeps(s, sender, b, reply);
    var o := Debited(s, sender, b, reply);
    if o.Commit? {
      var u := Parked(o.state, parks);
      var refund := u.balance + reply.paidBack - o.state.balance;
      ParkedKeeps(o.state, parks, b.wallet);
      TotalUpdate(u.deposits, b.wallet, Get(u.deposits, b.wallet) + refund);
    }
  }

  /** So does the whole loop; it can only run out of ETH of its own where more was parked than was free. */
  lemma {:induction false} MakerBuysWithKeep(s: Storage, sender: Address, fills: seq<(AtomicBuy, BuyReply)>,
                                             parks: seq<seq<Park>>)
    requires Books(s) && sender != 0
    ensures var o := MakerBuysWith(s, sender, fills, parks);
            && (o == Revert(Panic) ==> Free(s) < ParkedByFills(s, sender, fills, parks))
            && (o.Commit? ==> Books(o.state) && Free(o.state) == Free(s) - ParkedByFills(s, sender, fills, parks))
    decreases |fills|
  {
    if fills != [] {
      MakerBuyWithKeeps(s, sender, fills[0].0, fills[0].1, First(parks));
      var o := MakerBuyWith(s, sender, fills[0].0, fills[0].1, First(parks));
      if o.Commit? {
        MakerBuysWithKeep(o.state, sender, fills[1..], Later(parks));
      }
    }
  }

  // ---------------------------------------------------------------------
  // Solvency with deposits inside calls
  // ---------------------------------------------------------------------

  /** The refund at the end of a call leaves the books covered, or the call reverts. */
  lemma RefundedWithKeeps(step: Outcome, pay: PayReply, parks: seq<Park>)
    requires step.Commit? ==> Books(step.state)
    ensures var o := RefundedWith(step, pay, parks);
            && (o.Commit? ==> step.Commit? && 0 <= Free(step.state) && Solvent(o.state))
            && (o == Revert(Panic) <==> step == Revert(Panic) || (step.Commit? && Free(step.state) < 0))
            && (o.Commit? ==> Free(o.state) == 0 || (pay.Paid? && Free(o.state) == pay.back))
  {
    var o := Refunded(step, pay);
    if o.Commit? {
      ParkedKeeps(o.state, parks, 0);
    }
  }

  lemma StepKeeps(s: Storage, step: Outcome, parks: seq<Park>)
    requires Books(s)
    requires step.Commit? ==> step.state.deposits == s.deposits && step.state.operatorOf == s.operatorOf
    requires step.Commit? ==> step.state.totalDeposits == s.totalDeposits
    ensures var o := ParkedAfter(step, parks);
            o.Commit? ==> step.Commit? && Books(o.state) && Free(o.state) == Free(step.state)
  {
    if step.Commit? {
      ParkedKeeps(step.state, parks, 0);
    }
  }

  lemma StepOfKeeps(s: Storage, call: Call)
    requires (call.Launch? || call.BuyAfterLaunch? || call.BuyWithin?) && 0 <= Free(s)
    ensures var step := StepOf(s, call);
            && step != Revert(Panic)
            && (step.Commit? ==>
                  && step.state.deposits == s.deposits && step.state.operatorOf == s.operatorOf
                  && step.state.totalDeposits == s.totalDeposits && 0 <= Free(step.state))
  {
  }

  lemma RoutedSolvent(s: Storage, call: Call, inside: Inside)
    requires (call.Launch? || call.BuyAfterLaunch? || call.BuyWithin?) && Solvent(s)
    ensures Solvent(After(s, TryWith(s, call, inside))) && TryWith(s, call, inside) != Revert(Panic)
  {
    StepOfKeeps(s, call);
    StepKeeps(s, StepOf(s, call), inside.step);
    RefundedWithKeeps(ParkedAfter(StepOf(s, call), inside.step), call.pay, inside.payment);
  }

  lemma LaunchedKeeps(s: Storage, call: Call, inside: Inside)
    requires call.Atomic? && Solvent(s)
    ensures var o := LaunchedWith(s, call, inside);
            o != Revert(Panic) && (o.Commit? ==> Books(o.state) && 0 <= Free(o.state))
  {
    LaunchStage(s, call);
    StepKeeps(s, LaunchOf(s, call), inside.step);
  }

  /** More was parked inside an atomic call's maker buys than was free after its launch. */
  predicate OverParked(s: Storage, call: Call, inside: Inside) {
    && call.Atomic? && LaunchedWith(s, call, inside).Commit?
    && var t := LaunchedWith(s, call, inside).state;
       Free(t) < ParkedByFills(t, call.sender, call.fills, inside.fills)
  }

  /** An atomic call with deposits inside: it commits only when what was parked inside its maker buys fits what
      was free, and stops on the router's own arithmetic only when it does not. */
  lemma AtomicWithSolvent(s: Storage, call: Call, inside: Inside)
    requires call.Atomic? && call.sender != 0 && Solvent(s)
    ensures Solvent(After(s, TryWith(s, call, inside)))
    ensures TryWith(s, call, inside).Commit? ==> !OverParked(s, call, inside)
    ensures TryWith(s, call, inside) == Revert(Panic) ==> OverParked(s, call, inside)
  {
    LaunchedKeeps(s, call, inside);
    var o := LaunchedWith(s, call, inside);
    if o.Commit? {
      MakerBuysWithKeep(o.state, call.sender, call.fills, inside.fills);
      RefundedWithKeeps(MakerBuysWith(o.state, call.sender, call.fills, inside.fills), call.pay, inside.payment);
    }
  }

  /** Whatever is parked inside it, a call keeps the router solvent. */
  lemma CallWithKeepsSolvent(s: Storage, call: Call, inside: Inside)
    requires Solvent(s) && FromAccount(call)
    ensures Solvent(After(s, TryWith(s, call, inside)))
    ensures TryWith(s, call, inside) == Revert(Panic) ==> OverParked(s, call, inside)
    ensures OverParked(s, call, inside) ==> TryWith(s, call, inside).Revert?
  {
    if call.Atomic? {
      AtomicWithSolvent(s, call, inside);
    } else if call.Launch? || call.BuyAfterLaunch? || call.BuyWithin? {
      RoutedSolvent(s, call, inside);
    } else {
      CallKeepsSolvent(s, call);
      if call.Withdraw? && Try(s, call).Commit? {
        ParkedKeeps(Try(s, call).state, inside.payment, 0);
      }
    }
  }

  /** Over every sequence of calls, with whatever deposits inside them, the deposits
      add up to totalDeposits and the balance covers them. */
  lemma {:induction false} AlwaysSolventWith(calls: seq<(Call, Inside)>)
    requires forall i :: 0 <= i < |calls| ==> FromAccount(calls[i].0)
    ensures Solvent(RunWith(calls))
  {
    if calls == [] {
      assert Total(map[]) == 0;
    } else {
      var n := |calls| - 1;
      AlwaysSolventWith(calls[..n]);
      CallWithKeepsSolvent(RunWith(calls[..n]), calls[n].0, calls[n].1);
    }
  }

  /** An atomic launch whose maker buys went through succeeds against a caller that takes its refund if and only
      if what was parked inside them fits what was free: the caller's refund pays for crediting it twice. */
  lemma CallerPaysForParked(s: Storage, call: Call, inside: Inside)
    requires Solvent(s) && call.Atomic? && call.sender != 0 && call.pay.Paid?
    requires LaunchedWith(s, call, inside).Commit?
    requires var t := LaunchedWith(s, call, inside).state;
             MakerBuysWith(t, call.sender, call.fills, inside.fills).Commit?
    ensures TryWith(s, call, inside).Commit? <==> !OverParked(s, call, inside)
    ensures var t := LaunchedWith(s, call, inside).state;
            Free(MakerBuysWith(t, call.sender, call.fills, inside.fills).state)
            == Free(t) - ParkedByFills(t, call.sender, call.fills, inside.fills)
  {
    LaunchedKeeps(s, call, inside);
    var t := LaunchedWith(s, call, inside).state;
    MakerBuysWithKeep(t, call.sender, call.fills, inside.fills);
    RefundedWithKeeps(MakerBuysWith(t, call.sender, call.fills, inside.fills), call.pay, inside.payment);
  }
}
