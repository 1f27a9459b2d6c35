/** Executing the hops: every transfer is affordable when it is sent, and a hop
    without errors leaves each sender with at most its gas reserve. */
module FundingRun {
  import opened FloorMath
  import opened FundingPlan
  import opened FundingLedger
  import opened FundingSplit

  /** What became of one transfer: never sent, or mined for some gas, successfully or reverted. */
  datatype Outcome = Unsent | Mined(gas: nat, ok: bool)

  /** What the network answers one sender: whether its reads succeed, the reserve per
      transfer (gas limit times fee cap), the random draws, and each transfer's outcome. */
  datatype Answers = Answers(readable: bool, reserve: nat, draws: seq<nat>, outcomes: seq<Outcome>)

  /** Mined gas never exceeds the reserve. */
  predicate Answering(a: Answers, recipients: nat) {
    && |a.draws| == |a.outcomes| == recipients
    && (forall i :: 0 <= i < |a.draws| ==> a.draws[i] <= WEIGHT_MAX - WEIGHT_MIN)
    && forall i :: 0 <= i < |a.outcomes| && a.outcomes[i].Mined? ==> a.outcomes[i].gas <= a.reserve
  }

  function MoveOf(from: Account, to: Account, value: nat, outcome: Outcome, reserve: nat): Move
    requires outcome.Mined?
  {
    if outcome.ok then Paid(from, to, value, outcome.gas, reserve) else Reverted(from, value, outcome.gas, reserve)
  }

  /** One sender's transfers: of the given values, in order, each with the sender's reserve
      and possible on the ledger when it is sent. */
  ghost predicate Sent(kind: Kind, n: nat, m: Ledger, from: Account, to: seq<Account>, a: Answers,
                       values: seq<nat>, moves: seq<Move>) {
    && |moves| == |values| <= |to| <= |a.outcomes|
    && AllPossible(kind, n, m, moves)
    && forall k :: 0 <= k < |values| ==>
         a.outcomes[k].Mined? && moves[k] == MoveOf(from, to[k], values[k], a.outcomes[k], a.reserve)
  }

  /** Moves of one sender to recipients other than itself touch no third wallet. */
  ghost predicate OnlyBetween(m: Ledger, after: Ledger, from: Account, to: seq<Account>) {
    forall x: Account :: x != from && x !in to ==> Balance(after, x) == Balance(m, x)
  }

  lemma AfterSnoc(m: Ledger, moves: seq<Move>, move: Move)
    ensures After(m, moves + [move]) == Moved(After(m, moves), move)
  {
    assert (moves + [move])[..|moves|] == moves;
  }

  lemma SentSnoc(kind: Kind, n: nat, m: Ledger, from: Account, to: seq<Account>, a: Answers,
                 values: seq<nat>, moves: seq<Move>, value: nat)
    requires Sent(kind, n, m, from, to, a, values, moves) && |values| < |to| && a.outcomes[|values|].Mined?
    requires RouteEdge(kind, n, from, to[|values|])
    requires value + a.reserve <= Balance(After(m, moves), from) && a.outcomes[|values|].gas <= a.reserve
    ensures var move := MoveOf(from, to[|values|], value, a.outcomes[|values|], a.reserve);
            Sent(kind, n, m, from, to, a, values + [value], moves + [move])
  {
    PossibleSnoc(kind, n, m, moves, MoveOf(from, to[|values|], value, a.outcomes[|values|], a.reserve));
  }

  lemma SumFrom(s: seq<int>, i: nat)
    requires i < |s|
    ensures Sum(s[i..]) == s[i] + Sum(s[i + 1..])
  {
    assert s[i..][1..] == s[i + 1..];
  }

  predicate PaysForward(kind: Kind, n: nat, from: Account, to: seq<Account>) {
    forall k :: 0 <= k < |to| ==> RouteEdge(kind, n, from, to[k])
  }

  lemma ForwardIsElsewhere(kind: Kind, n: nat, from: Account, to: seq<Account>)
    requires PaysForward(kind, n, from, to)
    ensures from !in to
  {
    forall k | 0 <= k < |to|
      ensures to[k] != from
    {
      EdgesMoveForward(kind, n, from, to[k]);
    }
  }

  /** A split under way: the first i amounts are sent, and the balance covers the rest with all their gas. */
  ghost predicate Splitting(kind: Kind, n: nat, m: Ledger, spec: SplitSpec, a: Answers, amounts: seq<nat>,
                            after: Ledger, values: seq<nat>, moves: seq<Move>, ok: bool, i: nat) {
    && |amounts| == |spec.to| == |a.outcomes| && i <= |spec.to| && |values| == i && values == amounts[..i]
    && after == After(m, moves) && Sent(kind, n, m, spec.from, spec.to, a, values, moves)
    && OnlyBetween(m, after, spec.from, spec.to)
    && Sum(amounts[i..]) + (|spec.to| - i) * a.reserve <= Balance(after, spec.from)
    && (ok ==> Balance(after, spec.from) <= Sum(amounts[i..]) + |spec.to| * a.reserve)
    && (ok ==> forall j :: 0 <= j < i ==> a.outcomes[j].Mined? && a.outcomes[j].ok)
  }

  lemma SplitStep(kind: Kind, n: nat, m: Ledger, spec: SplitSpec, a: Answers, amounts: seq<nat>,
                  after: Ledger, values: seq<nat>, moves: seq<Move>, ok: bool, i: nat)
    requires Splitting(kind, n, m, spec, a, amounts, after, values, moves, ok, i) && i < |spec.to|
    requires a.outcomes[i].Mined?
    requires Answering(a, |spec.to|) && PaysForward(kind, n, spec.from, spec.to) && spec.from !in spec.to
    ensures var move := MoveOf(spec.from, spec.to[i], amounts[i], a.outcomes[i], a.reserve);
            Splitting(kind, n, m, spec, a, amounts, Moved(after, move), values + [amounts[i]], moves + [move],
                      ok && a.outcomes[i].ok, i + 1)
  {
    var move := MoveOf(spec.from, spec.to[i], amounts[i], a.outcomes[i], a.reserve);
    SumFrom(amounts, i);
    SumNonNegative(amounts[i + 1..]);
    RestIsCovered(Balance(after, spec.from), amounts[i], Sum(amounts[i + 1..]), |spec.to|, i, a.reserve);
    SentSnoc(kind, n, m, spec.from, spec.to, a, values, moves, amounts[i]);
    AfterSnoc(m, moves, move);
    assert amounts[..i + 1] == amounts[..i] + [amounts[i]];
    SenderPays(after, spec.from, spec.to[i], amounts[i], a.outcomes[i], a.reserve);
  }

  /** A balance that covers the transfers to come covers the next one, and afterwards the rest. */
  lemma RestIsCovered(balance: int, amount: nat, rest: nat, recipients: nat, i: nat, reserve: nat)
    requires i < recipients && amount + rest + (recipients - i) * reserve <= balance
    ensures amount + reserve <= balance
    ensures rest + (recipients - (i + 1)) * reserve <= balance - amount - reserve
  {
    MulMono(0, recipients - (i + 1), reserve);
    assert (recipients - i) * reserve == (recipients - (i + 1)) * reserve + reserve;
  }

  lemma SenderPays(m: Ledger, from: Account, to: Account, value: nat, outcome: Outcome, reserve: nat)
    requires outcome.Mined? && from != to && value + outcome.gas <= Balance(m, from)
    ensures var after := Moved(m, MoveOf(from, to, value, outcome, reserve));
            && Balance(after, from) == Balance(m, from) - outcome.gas - (if outcome.ok then value else 0)
            && OnlyBetween(m, after, from, [to])
  {
  }

  // ---------------------------------------------------------------------
  // What the recipients of a split gain
  // ---------------------------------------------------------------------

  /** The weights drawn for the recipients. */
  function DrawnWeights(draws: seq<nat>): (ws: seq<int>)
    ensures |ws| == |draws| && forall i :: 0 <= i < |draws| ==> ws[i] == 850 + draws[i]
  {
    seq(|draws|, i requires 0 <= i < |draws| => 850 + draws[i])
  }

  /** The values are the first of one split of the total by the drawn weights. */
  ghost predicate DrawnSplit(total: int, draws: seq<nat>, values: seq<nat>) {
    exists amounts: seq<int> ::
      IsSplit(total, DrawnWeights(draws), amounts) && |values| <= |amounts| && values == amounts[..|values|]
  }

  /** Mined and successful transfers reach their recipients in full. */
  lemma {:induction false} RecipientGains(kind: Kind, n: nat, m: Ledger, from: Account, to: seq<Account>, a: Answers,
                                          values: seq<nat>, moves: seq<Move>, i: nat)
    requires Sent(kind, n, m, from, to, a, values, moves) && DistinctAccounts(to) && from !in to
    requires forall k :: 0 <= k < |values| ==> a.outcomes[k].ok
    requires i < |to|
    ensures Balance(After(m, moves), to[i]) == Balance(m, to[i]) + if i < |values| then values[i] else 0
    decreases |values|
  {
    if values != [] {
      var k := |values| - 1;
      assert Sent(kind, n, m, from, to, a, values[..k], moves[..k]);
      RecipientGains(kind, n, m, from, to, a, values[..k], moves[..k], i);
      assert moves[k] == MoveOf(from, to[k], values[k], a.outcomes[k], a.reserve);
      assert to[i] == to[k] <==> i == k;
    }
  }

  /** What the recipient gains is its weight's share of the total rounded down, so at most
      1150 parts in 850 for each of the recipients. */
  ghost predicate GainsShare(m: Ledger, after: Ledger, total: int, draws: seq<nat>, to: seq<Account>, i: nat)
    requires i < |to| == |draws|
  {
    var gain, weights := Balance(after, to[i]) - Balance(m, to[i]), Sum(DrawnWeights(draws));
    && gain * weights <= total * (850 + draws[i]) < gain * weights + weights
    && gain * (850 * |to|) <= total * 1150
  }

  /** What is sent of a balance beyond its reserves is a beginning of its split by the drawn weights; without errors
      all of it is sent, and each of several recipients but the last gains its weight's share. */
  ghost predicate SplitsFairly(m: Ledger, after: Ledger, spec: SplitSpec, a: Answers, values: seq<nat>, ok: bool)
    requires |a.draws| == |spec.to|
  {
    var total := Balance(m, spec.from) - |spec.to| * a.reserve;
    && (values == [] || DrawnSplit(total, a.draws, values))
    && (ok ==> if total <= 0 then values == [] else Sum(values) == total && |values| == |spec.to|)
    && (ok && values != [] && DistinctAccounts(spec.to) ==>
          forall i :: 0 <= i < |spec.to| - 1 ==> GainsShare(m, after, total, a.draws, spec.to, i))
  }

  lemma SplitReachesAll(kind: Kind, n: nat, m: Ledger, spec: SplitSpec, a: Answers, total: nat, values: seq<nat>,
                        moves: seq<Move>)
    requires Answering(a, |spec.to|) && Sent(kind, n, m, spec.from, spec.to, a, values, moves)
    requires DistinctAccounts(spec.to) && spec.from !in spec.to && |values| == |spec.to| > 0
    requires forall k :: 0 <= k < |values| ==> a.outcomes[k].ok
    requires IsSplit(total, DrawnWeights(a.draws), values)
    ensures forall i :: 0 <= i < |spec.to| - 1 ==> GainsShare(m, After(m, moves), total, a.draws, spec.to, i)
  {
    forall i | 0 <= i < |spec.to| - 1
      ensures GainsShare(m, After(m, moves), total, a.draws, spec.to, i)
    {
      RecipientGains(kind, n, m, spec.from, spec.to, a, values, moves, i);
      assert RoundedShare(total, DrawnWeights(a.draws), values, i);
      PartAtMost(total, DrawnWeights(a.draws), values, i);
    }
  }

  /** Sends the parts in order, up to the first that cannot be sent. */
  method SendParts(ghost kind: Kind, ghost n: nat, m: Ledger, spec: SplitSpec, a: Answers, amounts: seq<nat>)
    returns (after: Ledger, ghost values: seq<nat>, ghost moves: seq<Move>, ok: bool)
    requires Answering(a, |spec.to|) && PaysForward(kind, n, spec.from, spec.to) && spec.from !in spec.to
    requires |amounts| == |spec.to| && Sum(amounts) + |spec.to| * a.reserve == Balance(m, spec.from)
    ensures Splitting(kind, n, m, spec, a, amounts, after, values, moves, ok, |values|)
    ensures ok ==> |values| == |spec.to|
  {
    after, values, moves, ok := m, [], [], true;
    assert amounts[0..] == amounts && amounts[..0] == [];
    for i := 0 to |spec.to|
      invariant Splitting(kind, n, m, spec, a, amounts, after, values, moves, ok, i)
    {
      if a.outcomes[i].Unsent? {
        return after, values, moves, false;
      }
      SplitStep(kind, n, m, spec, a, amounts, after, values, moves, ok, i);
      var move := MoveOf(spec.from, spec.to[i], amounts[i], a.outcomes[i], a.reserve);
      after, moves, values := Moved(after, move), moves + [move], values + [amounts[i]];
      ok := ok && a.outcomes[i].ok;
    }
  }

  /** What the parts sent come to: the first of the drawn split, and all of it when nothing failed. */
  lemma PartsAreDrawn(kind: Kind, n: nat, m: Ledger, spec: SplitSpec, a: Answers, amounts: seq<nat>,
                      after: Ledger, values: seq<nat>, moves: seq<Move>, ok: bool, total: nat)
    requires Answering(a, |spec.to|) && spec.to != [] && spec.from !in spec.to
    requires IsSplit(total, DrawnWeights(a.draws), amounts)
    requires Splitting(kind, n, m, spec, a, amounts, after, values, moves, ok, |values|)
    requires ok ==> |values| == |spec.to|
    requires 0 < total == Balance(m, spec.from) - |spec.to| * a.reserve
    ensures SplitsFairly(m, after, spec, a, values, ok)
    ensures ok ==> Balance(after, spec.from) <= |spec.to| * a.reserve
  {
    assert DrawnSplit(total, a.draws, values);
    if ok {
      assert amounts[..|amounts|] == amounts && amounts[|amounts|..] == [];
      if DistinctAccounts(spec.to) {
        SplitReachesAll(kind, n, m, spec, a, total, values, moves);
      }
    }
  }

  /** Fans a sender's balance out by the drawn weights, keeping the gas of every transfer back. */
  method ExecSplit(ghost kind: Kind, ghost n: nat, m: Ledger, spec: SplitSpec, a: Answers)
    returns (after: Ledger, ghost values: seq<nat>, ghost moves: seq<Move>, ok: bool)
    requires spec.to != [] && Answering(a, |spec.to|) && PaysForward(kind, n, spec.from, spec.to)
    ensures after == After(m, moves) && Sent(kind, n, m, spec.from, spec.to, a, values, moves)
    ensures OnlyBetween(m, after, spec.from, spec.to)
    ensures SplitsFairly(m, after, spec, a, values, ok)
    ensures ok ==> Balance(after, spec.from) <= |spec.to| * a.reserve
    ensures ok ==> forall k :: 0 <= k < |values| ==> a.outcomes[k].Mined? && a.outcomes[k].ok
  {
    after, values, moves := m, [], [];
    var balance, k := Balance(m, spec.from), |spec.to|;
    if !a.readable {
      return after, values, moves, false;
    }
    if balance <= 0 {
      return after, values, moves, true;
    }
    var spendable := balance - a.reserve * k;
    if spendable <= 0 {
      return after, values, moves, true;
    }
    ghost var weights;
    var amounts;
    weights, amounts := RandomNearEvenSplit(spendable, a.draws);
    assert weights == DrawnWeights(a.draws);
    ForwardIsElsewhere(kind, n, spec.from, spec.to);
    after, values, moves, ok := SendParts(kind, n, m, spec, a, amounts);
    PartsAreDrawn(kind, n, m, spec, a, amounts, after, values, moves, ok, spendable);
  }

  /** Moves a sender's balance on, keeping the gas of one transfer back. */
  method ExecSweep(ghost kind: Kind, ghost n: nat, m: Ledger, spec: SweepSpec, a: Answers)
    returns (after: Ledger, ghost values: seq<nat>, ghost moves: seq<Move>, ok: bool)
    requires Answering(a, 1) && RouteEdge(kind, n, spec.from, spec.to)
    ensures after == After(m, moves) && Sent(kind, n, m, spec.from, [spec.to], a, values, moves)
    ensures OnlyBetween(m, after, spec.from, [spec.to])
    ensures ok ==> Balance(after, spec.from) <= a.reserve
    ensures ok ==>
              if Balance(m, spec.from) <= a.reserve then values == [] else values == [Balance(m, spec.from) - a.reserve]
    ensures ok ==> forall k :: 0 <= k < |values| ==> a.outcomes[k].Mined? && a.outcomes[k].ok
  {
    after, values, moves := m, [], [];
    var balance := Balance(m, spec.from);
    if !a.readable {
      return after, values, moves, false;
    }
    if balance <= 0 {
      return after, values, moves, true;
    }
    var amount := balance - a.reserve;
    if amount <= 0 {
      return after, values, moves, true;
    }
    if a.outcomes[0].Unsent? {
      return after, values, moves, false;
    }
    EdgesMoveForward(kind, n, spec.from, spec.to);
    SentSnoc(kind, n, m, spec.from, [spec.to], a, values, moves, amount);
    AfterSnoc(m, moves, MoveOf(spec.from, spec.to, amount, a.outcomes[0], a.reserve));
    after := Moved(m, MoveOf(spec.from, spec.to, amount, a.outcomes[0], a.reserve));
    moves := moves + [MoveOf(spec.from, spec.to, amount, a.outcomes[0], a.reserve)];
    values := [amount];
    ok := a.outcomes[0].ok;
  }

  // ---------------------------------------------------------------------
  // Hops and whole tasks
  // ---------------------------------------------------------------------

  /** The answers to every sender of a hop. */
  datatype HopAnswers = HopAnswers(splits: seq<Answers>, sweeps: seq<Answers>)

  predicate HopAnswering(hop: Hop, a: HopAnswers) {
    && |a.splits| == |hop.splits| && |a.sweeps| == |hop.sweeps|
    && (forall k :: 0 <= k < |hop.splits| ==> Answering(a.splits[k], |hop.splits[k].to|))
    && (forall k :: 0 <= k < |hop.sweeps| ==> Answering(a.sweeps[k], 1))
  }

  /** Every sender of the hop stands at one stage and pays forward along the route. */
  ghost predicate SendsFrom(kind: Kind, n: nat, hop: Hop, stage: nat) {
    && (forall k :: 0 <= k < |hop.splits| ==>
          && hop.splits[k].to != [] && Stage(kind, hop.splits[k].from) == stage
          && PaysForward(kind, n, hop.splits[k].from, hop.splits[k].to))
    && (forall k :: 0 <= k < |hop.sweeps| ==>
          Stage(kind, hop.sweeps[k].from) == stage && RouteEdge(kind, n, hop.sweeps[k].from, hop.sweeps[k].to))
  }

  lemma HopSendsForward(kind: Kind, n: nat, hop: Hop, stage: nat)
    requires MovesStage(kind, n, hop, stage) && NoEmptySplit(hop)
    ensures SendsFrom(kind, n, hop, stage)
  {
    forall k | 0 <= k < |hop.splits|
      ensures Stage(kind, hop.splits[k].from) == stage && PaysForward(kind, n, hop.splits[k].from, hop.splits[k].to)
    {
      forall j | 0 <= j < |hop.splits[k].to|
        ensures RouteEdge(kind, n, hop.splits[k].from, hop.splits[k].to[j]) && Stage(kind, hop.splits[k].from) == stage
      {
        assert Edge(hop, hop.splits[k].from, hop.splits[k].to[j]);
      }
      assert Edge(hop, hop.splits[k].from, hop.splits[k].to[0]);
    }
    forall k | 0 <= k < |hop.sweeps|
      ensures Stage(kind, hop.sweeps[k].from) == stage && RouteEdge(kind, n, hop.sweeps[k].from, hop.sweeps[k].to)
    {
      assert hop.sweeps[k] == SweepSpec(hop.sweeps[k].from, hop.sweeps[k].to);
      assert Edge(hop, hop.sweeps[k].from, hop.sweeps[k].to);
    }
  }

  /** The first senders hold at most the gas they kept back: a reserve per recipient. */
  ghost predicate OnlyReservesLeft(hop: Hop, a: HopAnswers, m: Ledger, splits: nat, sweeps: nat)
    requires HopAnswering(hop, a) && splits <= |hop.splits| && sweeps <= |hop.sweeps|
  {
    && (forall k :: 0 <= k < splits ==> Balance(m, hop.splits[k].from) <= |hop.splits[k].to| * a.splits[k].reserve)
    && (forall k :: 0 <= k < sweeps ==> Balance(m, hop.sweeps[k].from) <= a.sweeps[k].reserve)
  }

  /** Wallets before the stage, and other senders of it, are not touched by one sender. */
  lemma OthersKeep(kind: Kind, n: nat, m: Ledger, after: Ledger, from: Account, to: seq<Account>, stage: nat,
                   x: Account)
    requires PaysForward(kind, n, from, to) && Stage(kind, from) == stage && OnlyBetween(m, after, from, to)
    requires x != from && Stage(kind, x) <= stage
    ensures Balance(after, x) == Balance(m, x)
  {
    forall k | 0 <= k < |to|
      ensures to[k] != x
    {
      EdgesMoveForward(kind, n, from, to[k]);
    }
  }

  /** Wallets before the stage hold what they held. */
  ghost predicate KeptBefore(kind: Kind, stage: nat, m: Ledger, after: Ledger) {
    forall x :: Stage(kind, x) < stage ==> Balance(after, x) == Balance(m, x)
  }

  lemma SplitDone(kind: Kind, n: nat, stage: nat, hop: Hop, a: HopAnswers, start: Ledger, m: Ledger, after: Ledger,
                  i: nat)
    requires SendsFrom(kind, n, hop, stage) && OncePerSender(hop) && HopAnswering(hop, a) && i < |hop.splits|
    requires OnlyBetween(m, after, hop.splits[i].from, hop.splits[i].to)
    ensures KeptBefore(kind, stage, start, m) ==> KeptBefore(kind, stage, start, after)
    ensures OnlyReservesLeft(hop, a, m, i, 0) ==>
              Balance(after, hop.splits[i].from) <= |hop.splits[i].to| * a.splits[i].reserve ==>
                OnlyReservesLeft(hop, a, after, i + 1, 0)
  {
    forall x | x != hop.splits[i].from && Stage(kind, x) <= stage
      ensures Balance(after, x) == Balance(m, x)
    {
      OthersKeep(kind, n, m, after, hop.splits[i].from, hop.splits[i].to, stage, x);
    }
  }

  lemma SweepDone(kind: Kind, n: nat, stage: nat, hop: Hop, a: HopAnswers, start: Ledger, m: Ledger, after: Ledger,
                  i: nat)
    requires SendsFrom(kind, n, hop, stage) && OncePerSender(hop) && HopAnswering(hop, a) && i < |hop.sweeps|
    requires OnlyBetween(m, after, hop.sweeps[i].from, [hop.sweeps[i].to])
    ensures KeptBefore(kind, stage, start, m) ==> KeptBefore(kind, stage, start, after)
    ensures OnlyReservesLeft(hop, a, m, 0, i) && Balance(after, hop.sweeps[i].from) <= a.sweeps[i].reserve ==>
              OnlyReservesLeft(hop, a, after, 0, i + 1)
  {
    forall x | x != hop.sweeps[i].from && Stage(kind, x) <= stage
      ensures Balance(after, x) == Balance(m, x)
    {
      OthersKeep(kind, n, m, after, hop.sweeps[i].from, [hop.sweeps[i].to], stage, x);
    }
  }

  /** The transfer is one of the hop's senders', with the reserve that sender keeps back. */
  ghost predicate HopMove(hop: Hop, a: HopAnswers, move: Move)
    requires HopAnswering(hop, a)
  {
    && !move.Arrived?
    && ((exists k :: 0 <= k < |hop.splits| && hop.splits[k].from == move.from && move.reserve == a.splits[k].reserve)
        || exists k :: 0 <= k < |hop.sweeps| && hop.sweeps[k].from == move.from && move.reserve == a.sweeps[k].reserve)
  }

  ghost predicate HopMoves(hop: Hop, a: HopAnswers, moves: seq<Move>)
    requires HopAnswering(hop, a)
  {
    forall j :: 0 <= j < |moves| ==> HopMove(hop, a, moves[j])
  }

  lemma SplitMovesAreHops(kind: Kind, n: nat, m: Ledger, hop: Hop, a: HopAnswers, i: nat, values: seq<nat>,
                          moves: seq<Move>)
    requires HopAnswering(hop, a) && i < |hop.splits|
    requires Sent(kind, n, m, hop.splits[i].from, hop.splits[i].to, a.splits[i], values, moves)
    ensures HopMoves(hop, a, moves)
  {
    forall j | 0 <= j < |moves|
      ensures HopMove(hop, a, moves[j])
    {
      assert hop.splits[i].from == moves[j].from && moves[j].reserve == a.splits[i].reserve;
    }
  }

  lemma SweepMovesAreHops(kind: Kind, n: nat, m: Ledger, hop: Hop, a: HopAnswers, i: nat, values: seq<nat>,
                          moves: seq<Move>)
    requires HopAnswering(hop, a) && i < |hop.sweeps|
    requires Sent(kind, n, m, hop.sweeps[i].from, [hop.sweeps[i].to], a.sweeps[i], values, moves)
    ensures HopMoves(hop, a, moves)
  {
    forall j | 0 <= j < |moves|
      ensures HopMove(hop, a, moves[j])
    {
      assert hop.sweeps[i].from == moves[j].from && moves[j].reserve == a.sweeps[i].reserve;
    }
  }

  /** Every split of the hop, whether or not another one fails. */
  method ExecSplits(ghost kind: Kind, ghost n: nat, ghost stage: nat, m: Ledger, hop: Hop, a: HopAnswers)
    returns (after: Ledger, ghost moves: seq<Move>, ok: bool)
    requires SendsFrom(kind, n, hop, stage) && OncePerSender(hop) && HopAnswering(hop, a)
    ensures after == After(m, moves) && AllPossible(kind, n, m, moves) && KeptBefore(kind, stage, m, after)
    ensures HopMoves(hop, a, moves)
    ensures hop.splits == [] ==> after == m
    ensures ok ==> OnlyReservesLeft(hop, a, after, |hop.splits|, 0)
  {
    after, moves, ok := m, [], true;
    for i := 0 to |hop.splits|
      invariant after == After(m, moves) && AllPossible(kind, n, m, moves) && KeptBefore(kind, stage, m, after)
      invariant ok ==> OnlyReservesLeft(hop, a, after, i, 0)
      invariant HopMoves(hop, a, moves)
      invariant i == 0 ==> after == m
    {
      ghost var before := after;
      var sent;
      ghost var values, done;
      after, values, done, sent := ExecSplit(kind, n, after, hop.splits[i], a.splits[i]);
      SplitMovesAreHops(kind, n, before, hop, a, i, values, done);
      SplitDone(kind, n, stage, hop, a, m, before, after, i);
      RunsJoin(kind, n, m, moves, done);
      moves := moves + done;
      ok := ok && sent;
    }
  }

  method ExecSweeps(ghost kind: Kind, ghost n: nat, ghost stage: nat, m: Ledger, hop: Hop, a: HopAnswers)
    returns (after: Ledger, ghost moves: seq<Move>, ok: bool)
    requires SendsFrom(kind, n, hop, stage) && OncePerSender(hop) && HopAnswering(hop, a)
    ensures after == After(m, moves) && AllPossible(kind, n, m, moves) && KeptBefore(kind, stage, m, after)
    ensures HopMoves(hop, a, moves)
    ensures hop.sweeps == [] ==> after == m
    ensures ok ==> OnlyReservesLeft(hop, a, after, 0, |hop.sweeps|)
  {
    after, moves, ok := m, [], true;
    for i := 0 to |hop.sweeps|
      invariant after == After(m, moves) && AllPossible(kind, n, m, moves) && KeptBefore(kind, stage, m, after)
      invariant ok ==> OnlyReservesLeft(hop, a, after, 0, i)
      invariant HopMoves(hop, a, moves)
      invariant i == 0 ==> after == m
    {
      ghost var before := after;
      var sent;
      ghost var values, done;
      after, values, done, sent := ExecSweep(kind, n, after, hop.sweeps[i], a.sweeps[i]);
      SweepMovesAreHops(kind, n, before, hop, a, i, values, done);
      SweepDone(kind, n, stage, hop, a, m, before, after, i);
      RunsJoin(kind, n, m, moves, done);
      moves := moves + done;
      ok := ok && sent;
    }
  }

  method ExecFundingHop(ghost kind: Kind, ghost n: nat, ghost stage: nat, m: Ledger, hop: Hop, a: HopAnswers)
    returns (after: Ledger, ghost moves: seq<Move>, ok: bool)
    requires SendsFrom(kind, n, hop, stage) && OncePerSender(hop) && HopAnswering(hop, a)
    ensures after == After(m, moves) && AllPossible(kind, n, m, moves) && KeptBefore(kind, stage, m, after)
    ensures HopMoves(hop, a, moves)
    ensures ok ==> OnlyReservesLeft(hop, a, after, |hop.splits|, |hop.sweeps|)
  {
    var split, swept;
    ghost var first, second;
    after, first, split := ExecSplits(kind, n, stage, m, hop, a);
    after, second, swept := ExecSweeps(kind, n, stage, after, hop, a);
    RunsJoin(kind, n, m, first, second);
    moves := first + second;
    ok := split && swept;
  }

  predicate TaskAnswering(hops: seq<Hop>, answers: seq<HopAnswers>) {
    |answers| == |hops| == HOP_COUNT && forall h :: 0 <= h < HOP_COUNT ==> HopAnswering(hops[h], answers[h])
  }

  /** Every transfer of the task is some hop's, with the reserve its sender keeps back. */
  ghost predicate TaskMoves(hops: seq<Hop>, answers: seq<HopAnswers>, moves: seq<Move>)
    requires TaskAnswering(hops, answers)
  {
    forall j :: 0 <= j < |moves| ==> exists h :: 0 <= h < HOP_COUNT && HopMove(hops[h], answers[h], moves[j])
  }

  lemma TaskMovesJoin(hops: seq<Hop>, answers: seq<HopAnswers>, moves: seq<Move>, done: seq<Move>, h: nat)
    requires TaskAnswering(hops, answers) && TaskMoves(hops, answers, moves)
    requires h < HOP_COUNT && HopMoves(hops[h], answers[h], done)
    ensures TaskMoves(hops, answers, moves + done)
  {
    var all := moves + done;
    forall j | 0 <= j < |all|
      ensures exists k :: 0 <= k < HOP_COUNT && HopMove(hops[k], answers[k], all[j])
    {
      if j < |moves| {
        assert all[j] == moves[j];
      } else {
        assert HopMove(hops[h], answers[h], all[j]);
      }
    }
  }

  /** A later hop touches no sender of an earlier one. */
  lemma ReservesStay(kind: Kind, n: nat, hop: Hop, stage: nat, a: HopAnswers, before: Ledger, after: Ledger, later: nat)
    requires MovesStage(kind, n, hop, stage) && NoEmptySplit(hop) && HopAnswering(hop, a) && stage < later
    requires KeptBefore(kind, later, before, after)
    requires OnlyReservesLeft(hop, a, before, |hop.splits|, |hop.sweeps|)
    ensures OnlyReservesLeft(hop, a, after, |hop.splits|, |hop.sweeps|)
  {
    HopSendsForward(kind, n, hop, stage);
  }

  /** The senders of the first hops still hold at most what they kept back. */
  ghost predicate Finished(hops: seq<Hop>, answers: seq<HopAnswers>, m: Ledger, count: nat)
    requires TaskAnswering(hops, answers) && count <= HOP_COUNT
  {
    forall h :: 0 <= h < count ==> OnlyReservesLeft(hops[h], answers[h], m, |hops[h].splits|, |hops[h].sweeps|)
  }

  lemma FinishedStays(kind: Kind, n: nat, hops: seq<Hop>, answers: seq<HopAnswers>, before: Ledger, after: Ledger,
                      count: nat)
    requires FullRoute(kind, n, hops) && forall h :: 0 <= h < HOP_COUNT ==> NoEmptySplit(hops[h])
    requires TaskAnswering(hops, answers) && count <= HOP_COUNT
    requires KeptBefore(kind, count, before, after) && Finished(hops, answers, before, count)
    ensures Finished(hops, answers, after, count)
  {
    forall h | 0 <= h < count
      ensures OnlyReservesLeft(hops[h], answers[h], after, |hops[h].splits|, |hops[h].sweeps|)
    {
      ReservesStay(kind, n, hops[h], h, answers[h], before, after, count);
    }
  }

  /** The hops in order; the first one that fails ends the run. */
  method RunFundingTask(kind: Kind, n: nat, m: Ledger, hops: seq<Hop>, answers: seq<HopAnswers>)
    returns (after: Ledger, ghost moves: seq<Move>, hopsDone: nat)
    requires FullRoute(kind, n, hops) && forall h :: 0 <= h < HOP_COUNT ==> NoEmptySplit(hops[h])
    requires TaskAnswering(hops, answers)
    ensures after == After(m, moves) && AllPossible(kind, n, m, moves)
    ensures TaskMoves(hops, answers, moves)
    ensures hopsDone <= HOP_COUNT
    ensures Finished(hops, answers, after, hopsDone)
  {
    after, moves, hopsDone := m, [], 0;
    while hopsDone < |hops|
      invariant hopsDone <= HOP_COUNT
      invariant TaskMoves(hops, answers, moves)
      invariant after == After(m, moves) && AllPossible(kind, n, m, moves)
      invariant Finished(hops, answers, after, hopsDone)
    {
      ghost var before := after;
      HopSendsForward(kind, n, hops[hopsDone], hopsDone);
      var ok;
      ghost var done;
      after, done, ok := ExecFundingHop(kind, n, hopsDone, after, hops[hopsDone], answers[hopsDone]);
      FinishedStays(kind, n, hops, answers, before, after, hopsDone);
      RunsJoin(kind, n, m, moves, done);
      TaskMovesJoin(hops, answers, moves, done, hopsDone);
      moves := moves + done;
      if !ok {
        return;
      }
      hopsDone := hopsDone + 1;
    }
  }
}
