/** Where the money of a route is: over any order of transfers, with any stops and
    restarts, lanes neither mix nor leak. */
module FundingLedger {
  import opened FundingPlan

  type Ledger = map<Account, nat>

  function Balance(m: Ledger, a: Account): nat {
    if a in m then m[a] else 0
  }

  /** What a block can do to the route's wallets: a mined transfer, one that reverted
      and only cost its gas, or money arriving from outside. The reserve is the most gas
      the transaction may cost: its gas limit times its fee cap. */
  datatype Move =
    | Paid(from: Account, to: Account, value: nat, fee: nat, reserve: nat)
    | Reverted(from: Account, value: nat, fee: nat, reserve: nat)
    | Arrived(to: Account, value: nat)

  /** The transfers of the plan; a transaction is only valid when its sender's balance covers
      its value and its whole reserve, whatever gas it ends up costing. */
  predicate Possible(kind: Kind, n: nat, m: Ledger, move: Move) {
    match move
    case Paid(from, to, value, fee, reserve) =>
      RouteEdge(kind, n, from, to) && fee <= reserve && value + reserve <= Balance(m, from)
    case Reverted(from, value, fee, reserve) =>
      OnRoute(kind, n, from) && fee <= reserve && value + reserve <= Balance(m, from)
    case Arrived(_, _) => true
  }

  /** The ledger after a move that its sender can afford. */
  function Moved(m: Ledger, move: Move): Ledger {
    match move
    case Paid(from, to, value, fee, _) =>
      var left := Balance(m, from) - value - fee;
      var debited := m[from := if left < 0 then 0 else left];
      debited[to := Balance(debited, to) + value]
    case Reverted(from, _, fee, _) =>
      var left := Balance(m, from) - fee;
      m[from := if left < 0 then 0 else left]
    case Arrived(to, value) => m[to := Balance(m, to) + value]
  }

  function After(m: Ledger, moves: seq<Move>): Ledger {
    if moves == [] then m else Moved(After(m, moves[..|moves| - 1]), moves[|moves| - 1])
  }

  predicate AllPossible(kind: Kind, n: nat, m: Ledger, moves: seq<Move>) {
    moves == []
    || (&& AllPossible(kind, n, m, moves[..|moves| - 1])
        && Possible(kind, n, After(m, moves[..|moves| - 1]), moves[|moves| - 1]))
  }

  // ---------------------------------------------------------------------
  // Conservation for any group of wallets
  // ---------------------------------------------------------------------

  function Held(m: Ledger, group: seq<Account>): nat {
    if group == [] then 0 else Balance(m, group[0]) + Held(m, group[1..])
  }

  /** Money a move brings into the group, takes out of it, and burns as its gas. */
  function Into(group: seq<Account>, move: Move): nat {
    match move
    case Paid(from, to, value, _, _) => if to in group && from !in group then value else 0
    case Reverted(_, _, _, _) => 0
    case Arrived(to, value) => if to in group then value else 0
  }

  function OutOf(group: seq<Account>, move: Move): nat {
    if move.Paid? && move.from in group && move.to !in group then move.value else 0
  }

  function GasOf(group: seq<Account>, move: Move): nat {
    if !move.Arrived? && move.from in group then move.fee else 0
  }

  function TotalInto(group: seq<Account>, moves: seq<Move>): nat {
    if moves == [] then 0 else TotalInto(group, moves[..|moves| - 1]) + Into(group, moves[|moves| - 1])
  }

  function TotalOutOf(group: seq<Account>, moves: seq<Move>): nat {
    if moves == [] then 0 else TotalOutOf(group, moves[..|moves| - 1]) + OutOf(group, moves[|moves| - 1])
  }

  function TotalGas(group: seq<Account>, moves: seq<Move>): nat {
    if moves == [] then 0 else TotalGas(group, moves[..|moves| - 1]) + GasOf(group, moves[|moves| - 1])
  }

  lemma {:induction false} HeldUpdate(m: Ledger, group: seq<Account>, a: Account, v: nat)
    requires DistinctAccounts(group)
    ensures Held(m[a := v], group) == Held(m, group) + if a in group then v - Balance(m, a) else 0
  {
    if group != [] {
      HeldUpdate(m, group[1..], a, v);
      assert group == [group[0]] + group[1..];
    }
  }

  lemma MovedConserves(kind: Kind, n: nat, group: seq<Account>, m: Ledger, move: Move)
    requires DistinctAccounts(group) && Possible(kind, n, m, move)
    ensures Held(Moved(m, move), group) + OutOf(group, move) + GasOf(group, move) == Held(m, group) + Into(group, move)
  {
    match move {
      case Paid(from, to, value, fee, _) =>
        EdgesMoveForward(kind, n, from, to);
        var debited := m[from := Balance(m, from) - value - fee];
        HeldUpdate(m, group, from, Balance(m, from) - value - fee);
        HeldUpdate(debited, group, to, Balance(debited, to) + value);
      case Reverted(from, _, fee, _) => HeldUpdate(m, group, from, Balance(m, from) - fee);
      case Arrived(to, value) => HeldUpdate(m, group, to, Balance(m, to) + value);
    }
  }

  /** For any group of wallets: what it holds, what left it and its gas equal what it held and what entered it. */
  lemma {:induction false} GroupConserves(kind: Kind, n: nat, group: seq<Account>, m: Ledger, moves: seq<Move>)
    requires DistinctAccounts(group) && AllPossible(kind, n, m, moves)
    ensures Held(After(m, moves), group) + TotalOutOf(group, moves) + TotalGas(group, moves)
            == Held(m, group) + TotalInto(group, moves)
  {
    if moves != [] {
      var k := |moves| - 1;
      GroupConserves(kind, n, group, m, moves[..k]);
      MovedConserves(kind, n, group, After(m, moves[..k]), moves[k]);
    }
  }

  // ---------------------------------------------------------------------
  // Lanes
  // ---------------------------------------------------------------------

  /** The five batch wallets of slot i. */
  function Lane(i: nat): (s: seq<Account>)
    ensures |s| == BATCH_COUNT && DistinctAccounts(s)
    ensures forall b: nat, j: nat :: Batch(b, j) in s <==> j == i && b < BATCH_COUNT
    ensures forall a :: a in s ==> a.Batch?
  {
    var s := [Batch(0, i), Batch(1, i), Batch(2, i), Batch(3, i), Batch(4, i)];
    assert forall b: nat :: b < BATCH_COUNT ==> s[b] == Batch(b, i);
    s
  }

  /** Money a slot's lane takes in comes from the slot's own relay or source, or from outside. */
  predicate FeedsLane(n: nat, i: nat, from: Account) {
    from == Source(i) || (from.DepositRelay? && InSlice(from.r, i, n))
  }

  predicate PaidByLane(n: nat, i: nat, to: Account) {
    to == Target(i) || (to.WithdrawRelay? && InSlice(to.r, i, n))
  }

  lemma LaneBorders(kind: Kind, n: nat, i: nat, from: Account, to: Account)
    requires RouteEdge(kind, n, from, to)
    ensures to in Lane(i) && from !in Lane(i) ==> FeedsLane(n, i, from)
    ensures from in Lane(i) && to !in Lane(i) ==> PaidByLane(n, i, to)
    ensures forall j :: from in Lane(i) && to in Lane(j) ==> i == j
  {
  }

  /** Money fed into lane i, by the slot's relay or source or from outside. */
  function Fed(n: nat, i: nat, move: Move): nat {
    match move
    case Paid(from, to, value, _, _) => if to in Lane(i) && FeedsLane(n, i, from) then value else 0
    case Reverted(_, _, _, _) => 0
    case Arrived(to, value) => if to in Lane(i) then value else 0
  }

  /** Money that moved on from lane i to its own target or relay. */
  function MovedOn(n: nat, i: nat, move: Move): nat {
    if move.Paid? && move.from in Lane(i) && PaidByLane(n, i, move.to) then move.value else 0
  }

  function TotalFed(n: nat, i: nat, moves: seq<Move>): nat {
    if moves == [] then 0 else TotalFed(n, i, moves[..|moves| - 1]) + Fed(n, i, moves[|moves| - 1])
  }

  function TotalMovedOn(n: nat, i: nat, moves: seq<Move>): nat {
    if moves == [] then 0 else TotalMovedOn(n, i, moves[..|moves| - 1]) + MovedOn(n, i, moves[|moves| - 1])
  }

  lemma {:induction false} LaneFlows(kind: Kind, n: nat, i: nat, m: Ledger, moves: seq<Move>)
    requires AllPossible(kind, n, m, moves)
    ensures TotalInto(Lane(i), moves) == TotalFed(n, i, moves)
    ensures TotalOutOf(Lane(i), moves) == TotalMovedOn(n, i, moves)
  {
    if moves != [] {
      var k := |moves| - 1;
      LaneFlows(kind, n, i, m, moves[..k]);
      if moves[k].Paid? {
        LaneBorders(kind, n, i, moves[k].from, moves[k].to);
      }
    }
  }

  /** Over any run: what slot i's batch wallets hold, what moved on to the slot's own
      target or relay, and the lane's gas equal what ever entered the lane. */
  lemma LaneNeverLeaks(kind: Kind, n: nat, i: nat, m: Ledger, moves: seq<Move>)
    requires AllPossible(kind, n, m, moves)
    ensures Held(After(m, moves), Lane(i)) + TotalMovedOn(n, i, moves) + TotalGas(Lane(i), moves)
            == Held(m, Lane(i)) + TotalFed(n, i, moves)
  {
    GroupConserves(kind, n, Lane(i), m, moves);
    LaneFlows(kind, n, i, m, moves);
  }

  // ---------------------------------------------------------------------
  // The whole route, and everything beyond a stage
  // ---------------------------------------------------------------------

  /** A list of all the route's wallets from some stage on. */
  ghost predicate Beyond(kind: Kind, n: nat, stage: nat, group: seq<Account>) {
    && DistinctAccounts(group)
    && forall a :: a in group <==> OnRoute(kind, n, a) && stage <= Stage(kind, a)
  }

  function TotalArrived(group: seq<Account>, moves: seq<Move>): nat {
    if moves == [] then 0
    else
      var k := |moves| - 1;
      TotalArrived(group, moves[..k]) + if moves[k].Arrived? && moves[k].to in group then moves[k].value else 0
  }

  /** Value paid across the border into a stage. */
  function TotalCrossing(kind: Kind, stage: nat, moves: seq<Move>): nat {
    if moves == [] then 0
    else
      var k := |moves| - 1;
      TotalCrossing(kind, stage, moves[..k])
      + if moves[k].Paid? && Stage(kind, moves[k].from) + 1 == stage then moves[k].value else 0
  }

  lemma {:induction false} BeyondFlows(kind: Kind, n: nat, stage: nat, group: seq<Account>, m: Ledger, moves: seq<Move>)
    requires AllPossible(kind, n, m, moves) && Beyond(kind, n, stage, group)
    ensures TotalOutOf(group, moves) == 0
    ensures TotalInto(group, moves) == TotalCrossing(kind, stage, moves) + TotalArrived(group, moves)
  {
    if moves != [] {
      var k := |moves| - 1;
      BeyondFlows(kind, n, stage, group, m, moves[..k]);
      if moves[k].Paid? {
        EdgesMoveForward(kind, n, moves[k].from, moves[k].to);
      }
    }
  }

  /** Nothing flows back: what lies at a stage or beyond it changes only by what crosses
      into that stage, what arrives from outside, and gas. At stage 0 nothing crosses, so
      the route's wallets and the paid-out wallets together lose nothing but gas. */
  lemma NothingFlowsBack(kind: Kind, n: nat, stage: nat, group: seq<Account>, m: Ledger, moves: seq<Move>)
    requires AllPossible(kind, n, m, moves) && Beyond(kind, n, stage, group)
    ensures Held(After(m, moves), group) + TotalGas(group, moves)
            == Held(m, group) + TotalCrossing(kind, stage, moves) + TotalArrived(group, moves)
    ensures stage == 0 ==> TotalCrossing(kind, stage, moves) == 0
  {
    GroupConserves(kind, n, group, m, moves);
    BeyondFlows(kind, n, stage, group, m, moves);
    if stage == 0 {
      NoCrossingIntoStart(kind, moves);
    }
  }

  lemma {:induction false} NoCrossingIntoStart(kind: Kind, moves: seq<Move>)
    ensures TotalCrossing(kind, 0, moves) == 0
  {
    if moves != [] {
      NoCrossingIntoStart(kind, moves[..|moves| - 1]);
    }
  }

  lemma DistinctConcat(a: seq<Account>, b: seq<Account>)
    requires DistinctAccounts(a) && DistinctAccounts(b) && forall x :: x in a ==> x !in b
    ensures DistinctAccounts(a + b)
  {
    forall x, y | 0 <= x < y < |a + b|
      ensures (a + b)[x] != (a + b)[y]
    {
      if x < |a| <= y {
        assert a[x] in a && b[y - |a|] in b;
      }
    }
  }

  /** The batch wallets of the first k batches. */
  lemma {:induction false} BatchList(n: nat, k: nat) returns (group: seq<Account>)
    ensures DistinctAccounts(group)
    ensures forall a :: a in group <==> a.Batch? && a.b < k && a.i < n
  {
    if k == 0 {
      return [];
    }
    var front := BatchList(n, k - 1);
    var last := BatchAccounts(k - 1, n);
    forall a: Account | a.Batch? && a.b == k - 1 && a.i < n
      ensures a in last
    {
      assert last[a.i] == a;
    }
    DistinctConcat(front, last);
    group := front + last;
  }

  /** The wallets of a route can be listed, each once. */
  lemma RouteList(kind: Kind, n: nat) returns (group: seq<Account>)
    ensures Beyond(kind, n, 0, group)
  {
    var batches := BatchList(n, BATCH_COUNT);
    var cold := [if kind.Distribute? then DepositCold else WithdrawCold];
    var relays := seq(RELAY_COUNT, (r: nat) => if kind.Distribute? then DepositRelay(r) else WithdrawRelay(r));
    var ends := if kind.Distribute? then TargetAccounts(n) else SourceAccounts(n);
    assert forall r: nat :: r < RELAY_COUNT ==>
        relays[r] == if kind.Distribute? then DepositRelay(r) else WithdrawRelay(r);
    assert forall i: nat :: i < n ==> ends[i] == if kind.Distribute? then Target(i) else Source(i);
    DistinctConcat(cold, relays);
    DistinctConcat(cold + relays, batches);
    DistinctConcat(cold + relays + batches, ends);
    group := cold + relays + batches + ends;
  }

  /** Those of the listed wallets that stand at a stage or beyond it. */
  function FromStage(kind: Kind, stage: nat, group: seq<Account>): (kept: seq<Account>)
    ensures forall a :: a in kept <==> a in group && stage <= Stage(kind, a)
    ensures DistinctAccounts(group) ==> DistinctAccounts(kept)
  {
    if group == [] then []
    else
      var k := |group| - 1;
      assert group == group[..k] + [group[k]];
      FromStage(kind, stage, group[..k]) + if stage <= Stage(kind, group[k]) then [group[k]] else []
  }

  /** So from every stage on, the wallets can be listed. */
  lemma StageList(kind: Kind, n: nat, stage: nat) returns (group: seq<Account>)
    ensures Beyond(kind, n, stage, group)
  {
    var all := RouteList(kind, n);
    group := FromStage(kind, stage, all);
  }

  lemma {:induction false} AfterJoin(m: Ledger, a: seq<Move>, b: seq<Move>)
    ensures After(m, a + b) == After(After(m, a), b)
    decreases |b|
  {
    if b == [] {
      assert a + b == a;
    } else {
      var k := |b| - 1;
      AfterJoin(m, a, b[..k]);
      assert (a + b)[..|a| + k] == a + b[..k];
    }
  }

  lemma PossibleSnoc(kind: Kind, n: nat, m: Ledger, moves: seq<Move>, move: Move)
    requires AllPossible(kind, n, m, moves) && Possible(kind, n, After(m, moves), move)
    ensures AllPossible(kind, n, m, moves + [move])
  {
    assert (moves + [move])[..|moves|] == moves;
  }

  lemma LastPossible(kind: Kind, n: nat, m: Ledger, moves: seq<Move>, k: nat)
    requires AllPossible(kind, n, m, moves) && |moves| == k + 1
    ensures AllPossible(kind, n, m, moves[..k]) && Possible(kind, n, After(m, moves[..k]), moves[k])
  {
  }

  lemma PossibleMore(kind: Kind, n: nat, m: Ledger, front: seq<Move>, here: Ledger, move: Move)
    requires AllPossible(kind, n, m, front) && After(m, front) == here && Possible(kind, n, here, move)
    ensures AllPossible(kind, n, m, front + [move])
  {
    PossibleSnoc(kind, n, m, front, move);
  }

  lemma JoinSnoc(a: seq<Move>, b: seq<Move>, k: nat)
    requires |b| == k + 1
    ensures a + b == a + b[..k] + [b[k]]
  {
  }

  lemma {:induction false} PossibleJoin(kind: Kind, n: nat, m: Ledger, a: seq<Move>, b: seq<Move>)
    requires AllPossible(kind, n, m, a) && AllPossible(kind, n, After(m, a), b)
    ensures AllPossible(kind, n, m, a + b)
    decreases |b|
  {
    if b == [] {
      assert a + b == a;
    } else {
      var k := |b| - 1;
      var here := After(m, a);
      LastPossible(kind, n, here, b, k);
      PossibleJoin(kind, n, m, a, b[..k]);
      AfterJoin(m, a, b[..k]);
      PossibleMore(kind, n, m, a + b[..k], After(here, b[..k]), b[k]);
      JoinSnoc(a, b, k);
    }
  }

  /** Runs follow each other: a stop and a restart are one longer run. */
  lemma RunsJoin(kind: Kind, n: nat, m: Ledger, a: seq<Move>, b: seq<Move>)
    requires AllPossible(kind, n, m, a) && AllPossible(kind, n, After(m, a), b)
    ensures After(m, a + b) == After(After(m, a), b) && AllPossible(kind, n, m, a + b)
  {
    AfterJoin(m, a, b);
    PossibleJoin(kind, n, m, a, b);
  }
}
