/** PonsMMRouter: a deposit ledger with external calls. The functions specify
    each entry point; the class runs it in place, rolling storage back on a
    revert as the chain does. */
module Router {
  import opened Optional

  /** An account; 0 is the zero address. */
  type Address = nat

  function Get(m: map<Address, nat>, k: Address): nat {
    if k in m then m[k] else 0
  }

  datatype Storage = Storage(
    launchBlock: map<Address, nat>,
    deposits: map<Address, nat>,
    operatorOf: map<Address, Address>,
    totalDeposits: nat,
    balance: nat)

  const INITIAL := Storage(map[], map[], map[], 0, 0)

  datatype Error =
    | Expired | NotLaunchedHere | ZeroAddress | ZeroValue | RefundFailed
    | InsufficientDeposit | NotOperator | OperatorLocked | LaunchValueTooLow
    | ExternalRevert  // the called contract reverted
    | Panic           // checked arithmetic or a transfer the balance cannot cover

  /** A call either commits a new state with its token amounts, or reverts. */
  datatype Outcome = Commit(state: Storage, tokensOut: seq<nat>) | Revert(error: Error)

  // What the outside world answers. paidBack and back are ETH that returns during the call.
  datatype LaunchReply = LaunchReverts | Launched(curve: Address, tokensOut: nat, paidBack: nat)
  datatype BuyReply = BuyReverts | Bought(tokensOut: nat, paidBack: nat)
  datatype PayReply = PayFails | Paid(back: nat)

  datatype Terms = Terms(quoteIn: nat, recipient: Address)
  datatype AtomicBuy = AtomicBuy(wallet: Address, quoteIn: nat)

  // ---------------------------------------------------------------------
  // The entry points, as functions
  // ---------------------------------------------------------------------

  function DepositSpec(s: Storage, sender: Address, value: nat, operator: Address): Outcome {
    if operator == 0 then Revert(ZeroAddress)
    else if value == 0 then Revert(ZeroValue)
    else
      var current := Get(s.operatorOf, sender);
      if current != 0 && current != operator && Get(s.deposits, sender) != 0 then Revert(OperatorLocked)
      else Commit(s.(operatorOf := s.operatorOf[sender := operator],
                     deposits := s.deposits[sender := Get(s.deposits, sender) + value],
                     totalDeposits := s.totalDeposits + value,
                     balance := s.balance + value), [])
  }

  function WithdrawSpec(s: Storage, sender: Address, amount: nat, pay: PayReply): Outcome {
    var bal := Get(s.deposits, sender);
    var take := if amount == 0 then bal else amount;
    if take == 0 then Revert(ZeroValue)
    else if take > bal then Revert(InsufficientDeposit)
    else if s.totalDeposits < take then Revert(Panic)
    else if s.balance < take || pay.PayFails? then Revert(RefundFailed)
    else Commit(s.(deposits := s.deposits[sender := bal - take],
                   totalDeposits := s.totalDeposits - take,
                   balance := s.balance - take + pay.back), [])
  }

  /** Forwards a launch with `value`, which the balance already holds, and records its block. */
  function LaunchStep(s: Storage, terms: Terms, factory: Address, officialRouter: Address, value: nat,
                      reply: LaunchReply, l2Block: nat): Outcome
  {
    if terms.recipient == 0 || factory == 0 then Revert(ZeroAddress)
    else if value < terms.quoteIn then Revert(LaunchValueTooLow)
    else if terms.quoteIn != 0 && officialRouter == 0 then Revert(ZeroAddress)
    else if s.balance < value then Revert(Panic)
    else if reply.LaunchReverts? then Revert(ExternalRevert)
    else Commit(s.(balance := s.balance - value + reply.paidBack,
                   launchBlock := s.launchBlock[reply.curve := l2Block]),
                [if terms.quoteIn == 0 then 0 else reply.tokensOut])
  }

  /** Sends everything that is not a maker deposit to the caller. */
  function RefundFree(s: Storage, pay: PayReply): Outcome {
    if s.balance < s.totalDeposits then Revert(Panic)
    else if s.balance == s.totalDeposits then Commit(s, [])
    else if pay.PayFails? then Revert(RefundFailed)
    else Commit(s.(balance := s.totalDeposits + pay.back), [])
  }

  /** A step that went through ends with the refund of what is free. */
  function Refunded(step: Outcome, pay: PayReply): Outcome {
    match step
    case Revert(e) => Revert(e)
    case Commit(t, out) =>
      match RefundFree(t, pay)
      case Revert(e) => Revert(e)
      case Commit(u, _) => Commit(u, out)
  }

  function LaunchSpec(s: Storage, value: nat, terms: Terms, factory: Address, officialRouter: Address,
                      reply: LaunchReply, l2Block: nat, pay: PayReply): Outcome
  {
    Refunded(LaunchStep(s.(balance := s.balance + value), terms, factory, officialRouter, value, reply, l2Block), pay)
  }

  /** Passes the whole value on to the curve. */
  function RoutedBuyStep(s: Storage, value: nat, curve: Address, recipient: Address, reply: BuyReply): Outcome {
    if curve == 0 || recipient == 0 then Revert(ZeroAddress)
    else if value == 0 then Revert(ZeroValue)
    else if reply.BuyReverts? then Revert(ExternalRevert)
    else Commit(s.(balance := s.balance + reply.paidBack), [reply.tokensOut])
  }

  function RoutedBuySpec(s: Storage, value: nat, curve: Address, recipient: Address, reply: BuyReply,
                         pay: PayReply): Outcome {
    Refunded(RoutedBuyStep(s, value, curve, recipient, reply), pay)
  }

  function BuyAfterLaunchStep(s: Storage, value: nat, curve: Address, maxBlocks: nat, recipient: Address,
                              l2Block: nat, reply: BuyReply): Outcome
  {
    var lb := Get(s.launchBlock, curve);
    if lb == 0 then Revert(NotLaunchedHere)
    else if l2Block > lb + maxBlocks then Revert(Expired)
    else RoutedBuyStep(s, value, curve, recipient, reply)
  }

  function BuyAfterLaunchSpec(s: Storage, value: nat, curve: Address, maxBlocks: nat, recipient: Address,
                              l2Block: nat, reply: BuyReply, pay: PayReply): Outcome
  {
    Refunded(BuyAfterLaunchStep(s, value, curve, maxBlocks, recipient, l2Block, reply), pay)
  }

  function BuyWithinStep(s: Storage, value: nat, curve: Address, maxL2Block: nat, recipient: Address,
                         l2Block: nat, reply: BuyReply): Outcome
  {
    if l2Block > maxL2Block then Revert(Expired) else RoutedBuyStep(s, value, curve, recipient, reply)
  }

  function BuyWithinSpec(s: Storage, value: nat, curve: Address, maxL2Block: nat, recipient: Address,
                         l2Block: nat, reply: BuyReply, pay: PayReply): Outcome
  {
    Refunded(BuyWithinStep(s, value, curve, maxL2Block, recipient, l2Block, reply), pay)
  }

  /** One maker buy out of the maker's deposit; what the curve hands back is credited to the maker. */
  function MakerBuy(s: Storage, sender: Address, b: AtomicBuy, reply: BuyReply): Outcome {
    if b.wallet == 0 then Revert(ZeroAddress)
    else if b.quoteIn == 0 then Revert(ZeroValue)
    else if Get(s.operatorOf, b.wallet) != sender then Revert(NotOperator)
    else if Get(s.deposits, b.wallet) < b.quoteIn then Revert(InsufficientDeposit)
    else if s.totalDeposits < b.quoteIn || s.balance < b.quoteIn then Revert(Panic)
    else if reply.BuyReverts? then Revert(ExternalRevert)
    else Commit(s.(deposits := s.deposits[b.wallet := Get(s.deposits, b.wallet) - b.quoteIn + reply.paidBack],
                   totalDeposits := s.totalDeposits - b.quoteIn + reply.paidBack,
                   balance := s.balance - b.quoteIn + reply.paidBack), [reply.tokensOut])
  }

  function MakerBuys(s: Storage, sender: Address, buys: seq<AtomicBuy>, replies: seq<BuyReply>): Outcome
    requires |replies| == |buys|
    decreases |buys|
  {
    if buys == [] then Commit(s, [])
    else
      match MakerBuy(s, sender, buys[0], replies[0])
      case Revert(e) => Revert(e)
      case Commit(t, got) =>
        match MakerBuys(t, sender, buys[1..], replies[1..])
        case Revert(e) => Revert(e)
        case Commit(u, rest) => Commit(u, got + rest)
  }

  function AtomicSpec(s: Storage, sender: Address, value: nat, terms: Terms, factory: Address, officialRouter: Address,
                      reply: LaunchReply, l2Block: nat, buys: seq<AtomicBuy>, replies: seq<BuyReply>,
                      pay: PayReply): Outcome
    requires |replies| == |buys|
  {
    match LaunchStep(s.(balance := s.balance + value), terms, factory, officialRouter, value, reply, l2Block)
    case Revert(e) => Revert(e)
    case Commit(t, _) => Refunded(MakerBuys(t, sender, buys, replies), pay)
  }

  /** The state a call leaves: a reverted call changes nothing. */
  function After(s: Storage, outcome: Outcome): Storage {
    if outcome.Commit? then outcome.state else s
  }

  /** What a caller sees of an outcome: the tokens it gives, or the error it reverts with. */
  predicate Reports(outcome: Outcome, failure: Option<Error>, tokensOut: seq<nat>) {
    match outcome
    case Commit(_, out) => failure == None && out == tokensOut
    case Revert(e) => failure == Some(e)
  }

  // ---------------------------------------------------------------------
  // The contract
  // ---------------------------------------------------------------------

  class PonsMMRouter {
    var launchBlock: map<Address, nat>
    var deposits: map<Address, nat>
    var operatorOf: map<Address, Address>
    var totalDeposits: nat
    var balance: nat

    constructor ()
      ensures State() == INITIAL
    {
      launchBlock, deposits, operatorOf, totalDeposits, balance := map[], map[], map[], 0, 0;
    }

    function State(): Storage
      reads this
    {
      Storage(launchBlock, deposits, operatorOf, totalDeposits, balance)
    }

    /** Undoes every write of a reverted call. */
    method Rollback(s: Storage)
      modifies this
      ensures State() == s
    {
      launchBlock, deposits, operatorOf := s.launchBlock, s.deposits, s.operatorOf;
      totalDeposits, balance := s.totalDeposits, s.balance;
    }

    method Deposit(sender: Address, value: nat, operator: Address) returns (failure: Option<Error>)
      modifies this
      ensures State() == After(old(State()), DepositSpec(old(State()), sender, value, operator))
      ensures Reports(DepositSpec(old(State()), sender, value, operator), failure, [])
    {
      if operator == 0 { return Some(ZeroAddress); }
      if value == 0 { return Some(ZeroValue); }
      var current := Get(operatorOf, sender);
      if current != 0 && current != operator && Get(deposits, sender) != 0 {
        return Some(OperatorLocked);
      }
      balance := balance + value;
      operatorOf := operatorOf[sender := operator];
      deposits := deposits[sender := Get(deposits, sender) + value];
      totalDeposits := totalDeposits + value;
      return None;
    }

    method Withdraw(sender: Address, amount: nat, pay: PayReply) returns (failure: Option<Error>)
      modifies this
      ensures State() == After(old(State()), WithdrawSpec(old(State()), sender, amount, pay))
      ensures Reports(WithdrawSpec(old(State()), sender, amount, pay), failure, [])
    {
      var saved := State();
      var bal := Get(deposits, sender);
      var take := if amount == 0 then bal else amount;
      if take == 0 { return Some(ZeroValue); }
      if take > bal { return Some(InsufficientDeposit); }
      deposits := deposits[sender := bal - take];
      if totalDeposits < take {
        Rollback(saved);
        return Some(Panic);
      }
      totalDeposits := totalDeposits - take;
      if balance < take || pay.PayFails? {
        Rollback(saved);
        return Some(RefundFailed);
      }
      balance := balance - take + pay.back;
      return None;
    }

    method LaunchInside(terms: Terms, factory: Address, officialRouter: Address, value: nat, reply: LaunchReply,
                        l2Block: nat)
      returns (failure: Option<Error>, curve: Address, tokensOut: nat)
      modifies this
      ensures match LaunchStep(old(State()), terms, factory, officialRouter, value, reply, l2Block)
              case Commit(t, out) =>
                failure == None && State() == t && out == [tokensOut] && reply.Launched? && curve == reply.curve
              case Revert(e) => failure == Some(e)
    {
      if terms.recipient == 0 || factory == 0 { return Some(ZeroAddress), 0, 0; }
      if value < terms.quoteIn { return Some(LaunchValueTooLow), 0, 0; }
      if terms.quoteIn != 0 && officialRouter == 0 { return Some(ZeroAddress), 0, 0; }
      if balance < value { return Some(Panic), 0, 0; }
      if reply.LaunchReverts? { return Some(ExternalRevert), 0, 0; }
      balance := balance - value;
      balance := balance + reply.paidBack;
      launchBlock := launchBlock[reply.curve := l2Block];
      return None, reply.curve, if terms.quoteIn == 0 then 0 else reply.tokensOut;
    }

    method RefundInside(pay: PayReply) returns (failure: Option<Error>)
      modifies this
      ensures match RefundFree(old(State()), pay)
              case Commit(t, _) => failure == None && State() == t
              case Revert(e) => failure == Some(e)
    {
      if balance < totalDeposits { return Some(Panic); }
      var refund := balance - totalDeposits;
      if refund != 0 {
        if pay.PayFails? { return Some(RefundFailed); }
        balance := balance - refund + pay.back;
      }
      return None;
    }

    method Launch(value: nat, terms: Terms, factory: Address, officialRouter: Address,
                  reply: LaunchReply, l2Block: nat, pay: PayReply)
      returns (failure: Option<Error>, tokensOut: nat)
      modifies this
      ensures var outcome := LaunchSpec(old(State()), value, terms, factory, officialRouter, reply, l2Block, pay);
              && State() == After(old(State()), outcome)
              && Reports(outcome, failure, [tokensOut])
    {
      var saved := State();
      balance := balance + value;
      var curve;
      failure, curve, tokensOut := LaunchInside(terms, factory, officialRouter, value, reply, l2Block);
      if failure == None {
        failure := RefundInside(pay);
      }
      if failure != None {
        Rollback(saved);
      }
    }

    method RoutedBuy(value: nat, curve: Address, recipient: Address, reply: BuyReply, pay: PayReply)
      returns (failure: Option<Error>, tokensOut: nat)
      modifies this
      ensures var outcome := RoutedBuySpec(old(State()), value, curve, recipient, reply, pay);
              && State() == After(old(State()), outcome)
              && Reports(outcome, failure, [tokensOut])
    {
      var saved := State();
      balance := balance + value;
      tokensOut := 0;
      if curve == 0 || recipient == 0 {
        failure := Some(ZeroAddress);
      } else if value == 0 {
        failure := Some(ZeroValue);
      } else if reply.BuyReverts? {
        failure := Some(ExternalRevert);
      } else {
        balance := balance - value;
        balance := balance + reply.paidBack;
        tokensOut := reply.tokensOut;
        failure := RefundInside(pay);
      }
      if failure != None {
        Rollback(saved);
      }
    }

    method BuyAfterLaunch(value: nat, curve: Address, maxBlocks: nat, recipient: Address, l2Block: nat,
                          reply: BuyReply, pay: PayReply)
      returns (failure: Option<Error>, tokensOut: nat)
      modifies this
      ensures var outcome := BuyAfterLaunchSpec(old(State()), value, curve, maxBlocks, recipient, l2Block, reply, pay);
              && State() == After(old(State()), outcome)
              && Reports(outcome, failure, [tokensOut])
      ensures var lb := Get(old(launchBlock), curve);
              && (failure == Some(NotLaunchedHere) <==> lb == 0)
              && (failure == Some(Expired) <==> 0 < lb && lb + maxBlocks < l2Block)
    {
      var lb := Get(launchBlock, curve);
      if lb == 0 { return Some(NotLaunchedHere), 0; }
      var maxBlock := lb + maxBlocks;
      if l2Block > maxBlock { return Some(Expired), 0; }
      failure, tokensOut := RoutedBuy(value, curve, recipient, reply, pay);
    }

    method BuyWithin(value: nat, curve: Address, maxL2Block: nat, recipient: Address, l2Block: nat, reply: BuyReply,
                     pay: PayReply)
      returns (failure: Option<Error>, tokensOut: nat)
      modifies this
      ensures var outcome := BuyWithinSpec(old(State()), value, curve, maxL2Block, recipient, l2Block, reply, pay);
              && State() == After(old(State()), outcome)
              && Reports(outcome, failure, [tokensOut])
      ensures failure == Some(Expired) <==> maxL2Block < l2Block
    {
      if l2Block > maxL2Block { return Some(Expired), 0; }
      failure, tokensOut := RoutedBuy(value, curve, recipient, reply, pay);
    }

    /** Pays one maker buy from its deposit and credits the measured refund. */
    method BuyForMaker(sender: Address, b: AtomicBuy, reply: BuyReply) returns (failure: Option<Error>, got: nat)
      modifies this
      ensures match MakerBuy(old(State()), sender, b, reply)
              case Commit(t, out) => failure == None && State() == t && out == [got]
              case Revert(e) => failure == Some(e)
    {
      if b.wallet == 0 { return Some(ZeroAddress), 0; }
      if b.quoteIn == 0 { return Some(ZeroValue), 0; }
      if Get(operatorOf, b.wallet) != sender { return Some(NotOperator), 0; }
      var have := Get(deposits, b.wallet);
      if have < b.quoteIn { return Some(InsufficientDeposit), 0; }
      deposits := deposits[b.wallet := have - b.quoteIn];
      if totalDeposits < b.quoteIn { return Some(Panic), 0; }
      totalDeposits := totalDeposits - b.quoteIn;
      var balBefore := balance;
      if balance < b.quoteIn { return Some(Panic), 0; }
      if reply.BuyReverts? { return Some(ExternalRevert), 0; }
      balance := balance - b.quoteIn;
      balance := balance + reply.paidBack;
      // the refund is measured by balance difference, not reported by the curve
      var refund := balance - (balBefore - b.quoteIn);
      if refund != 0 {
        deposits := deposits[b.wallet := Get(deposits, b.wallet) + refund];
        totalDeposits := totalDeposits + refund;
      }
      return None, reply.tokensOut;
    }

    /** Every maker buy in order, up to the first that reverts. */
    method BuyForMakers(sender: Address, buys: seq<AtomicBuy>, replies: seq<BuyReply>)
      returns (failure: Option<Error>, makerTokens: seq<nat>)
      requires |replies| == |buys|
      modifies this
      ensures match MakerBuys(old(State()), sender, buys, replies)
              case Commit(t, out) => failure == None && State() == t && out == makerTokens
              case Revert(e) => failure == Some(e)
    {
      failure, makerTokens := None, [];
      for i := 0 to |buys|
        invariant failure == None
        invariant MakerBuys(old(State()), sender, buys, replies) ==
                  match MakerBuys(State(), sender, buys[i..], replies[i..])
                  case Commit(u, rest) => Commit(u, makerTokens + rest)
                  case Revert(e) => Revert(e)
      {
        assert buys[i..][0] == buys[i] && replies[i..][0] == replies[i];
        assert buys[i..][1..] == buys[i + 1..] && replies[i..][1..] == replies[i + 1..];
        var got;
        failure, got := BuyForMaker(sender, buys[i], replies[i]);
        if failure != None {
          return;
        }
        assert forall rest: seq<nat> :: makerTokens + ([got] + rest) == (makerTokens + [got]) + rest;
        makerTokens := makerTokens + [got];
      }
      assert makerTokens + [] == makerTokens;
    }

    method LaunchAndBuyAtomic(sender: Address, value: nat, terms: Terms, factory: Address, officialRouter: Address,
                              reply: LaunchReply, l2Block: nat, buys: seq<AtomicBuy>, replies: seq<BuyReply>,
                              pay: PayReply)
      returns (failure: Option<Error>, makerTokens: seq<nat>)
      requires |replies| == |buys|
      modifies this
      ensures var outcome := AtomicSpec(old(State()), sender, value, terms, factory, officialRouter, reply, l2Block,
                                        buys, replies, pay);
              && State() == After(old(State()), outcome)
              && Reports(outcome, failure, makerTokens)
    {
      var saved := State();
      balance := balance + value;
      makerTokens := [];
      var curve, tokensOut;
      failure, curve, tokensOut := LaunchInside(terms, factory, officialRouter, value, reply, l2Block);
      if failure == None {
        failure, makerTokens := BuyForMakers(sender, buys, replies);
      }
      if failure == None {
        failure := RefundInside(pay);
      }
      if failure != None {
        Rollback(saved);
      }
    }

    /** Plain ETH arriving, as the official contracts' change does. */
    method Receive(value: nat)
      modifies this
      ensures State() == old(State()).(balance := old(balance) + value)
    {
      balance := balance + value;
    }
  }
}
