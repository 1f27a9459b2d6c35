/** The funding route: seven hops between a cold wallet, ten relays, five batches
    of wallets and the targets (or, withdrawing, the sources). */
module FundingPlan {
  import opened FloorMath

  const RELAY_COUNT := 10
  const BATCH_COUNT := 5
  const HOP_COUNT := 7

  datatype Kind = Distribute | Withdraw

  /** The wallets of a route; keys are derived apart from each other and from the targets. */
  datatype Account =
    | DepositCold
    | DepositRelay(r: nat)
    | Batch(b: nat, i: nat)
    | Target(i: nat)
    | Source(i: nat)
    | WithdrawRelay(r: nat)
    | WithdrawCold

  /** One sender paying several recipients, or its whole balance to one. */
  datatype SplitSpec = SplitSpec(from: Account, to: seq<Account>)
  datatype SweepSpec = SweepSpec(from: Account, to: Account)
  datatype Hop = Hop(splits: seq<SplitSpec>, sweeps: seq<SweepSpec>)

  // ---------------------------------------------------------------------
  // Relay slices
  // ---------------------------------------------------------------------

  /** Where relay r's slots begin. */
  function SliceStart(r: nat, n: nat): nat {
    r * n / RELAY_COUNT
  }

  predicate InSlice(r: nat, i: nat, n: nat) {
    SliceStart(r, n) <= i < SliceStart(r + 1, n)
  }

  /** Slices follow each other without gap, are near-even, and together hold all n slots. */
  lemma SlicesTile(n: nat, r: nat)
    ensures SliceStart(0, n) == 0 && SliceStart(RELAY_COUNT, n) == n
    ensures n / RELAY_COUNT <= SliceStart(r + 1, n) - SliceStart(r, n) <= n / RELAY_COUNT + 1
  {
    assert (r + 1) * n == r * n + n;
    TenthOfSum(r * n, n);
  }

  /** A relay's slots begin at the largest one that leaves the earlier relays no more than their tenths. */
  lemma SliceStartIsLargest(r: nat, n: nat, k: nat)
    ensures k <= SliceStart(r, n) <==> 10 * k <= r * n
  {
  }

  lemma TenthOfSum(a: nat, b: nat)
    ensures a / 10 + b / 10 <= (a + b) / 10 <= a / 10 + b / 10 + 1
  {
  }

  lemma SliceMono(r: nat, q: nat, n: nat)
    requires r <= q
    ensures SliceStart(r, n) <= SliceStart(q, n)
  {
    MulMono(r, q, n);
    FloorMono(r * n, q * n, RELAY_COUNT);
  }

  /** No slot belongs to two relays. */
  lemma OneOwner(n: nat, i: nat, r: nat, q: nat)
    requires InSlice(r, i, n) && InSlice(q, i, n)
    ensures r == q
  {
    if r < q {
      SliceMono(r + 1, q, n);
    } else if q < r {
      SliceMono(q + 1, r, n);
    }
  }

  /** Every slot below the first k relays' end belongs to one of them. */
  lemma {:induction false} OwnerBelow(n: nat, i: nat, k: nat) returns (r: nat)
    requires i < SliceStart(k, n)
    ensures r < k && InSlice(r, i, n)
  {
    SlicesTile(n, 0);
    assert k > 0;
    if SliceStart(k - 1, n) <= i {
      r := k - 1;
    } else {
      r := OwnerBelow(n, i, k - 1);
    }
  }

  /** Every slot of the route belongs to exactly one of the ten relays. */
  lemma EverySlotHasOneRelay(n: nat, i: nat) returns (r: nat)
    requires i < n
    ensures r < RELAY_COUNT && InSlice(r, i, n)
    ensures forall q :: InSlice(q, i, n) ==> q == r
  {
    SlicesTile(n, 0);
    r := OwnerBelow(n, i, RELAY_COUNT);
    forall q | InSlice(q, i, n)
      ensures q == r
    {
      OneOwner(n, i, q, r);
    }
  }

  predicate Active(r: nat, n: nat) {
    SliceStart(r, n) < SliceStart(r + 1, n)
  }

  /** How many of the first k relays own a slot. */
  function ActiveBelow(k: nat, n: nat): nat {
    if k == 0 then 0 else ActiveBelow(k - 1, n) + if Active(k - 1, n) then 1 else 0
  }

  lemma {:induction false} ActiveCount(k: nat, n: nat)
    ensures ActiveBelow(k, n) == if RELAY_COUNT <= n then k else SliceStart(k, n)
  {
    SlicesTile(n, 0);
    if k > 0 {
      ActiveCount(k - 1, n);
      SlicesTile(n, k - 1);
    }
  }

  /** With n targets, min(10, n) relays own a slot. */
  lemma ActiveRelays(n: nat)
    ensures ActiveBelow(RELAY_COUNT, n) == Min(RELAY_COUNT, n)
  {
    ActiveCount(RELAY_COUNT, n);
    SlicesTile(n, 0);
  }

  // ---------------------------------------------------------------------
  // What a route is
  // ---------------------------------------------------------------------

  predicate OnRoute(kind: Kind, n: nat, a: Account) {
    match a
    case DepositCold => kind.Distribute?
    case DepositRelay(r) => kind.Distribute? && r < RELAY_COUNT
    case Batch(b, i) => b < BATCH_COUNT && i < n
    case Target(i) => kind.Distribute? && i < n
    case Source(i) => kind.Withdraw? && i < n
    case WithdrawRelay(r) => kind.Withdraw? && r < RELAY_COUNT
    case WithdrawCold => kind.Withdraw?
  }

  /** How far along its route a wallet stands. */
  function Stage(kind: Kind, a: Account): nat {
    match a
    case DepositCold => 0
    case DepositRelay(_) => 1
    case Batch(b, _) => if kind.Distribute? then b + 2 else b + 1
    case Target(_) => HOP_COUNT
    case Source(_) => 0
    case WithdrawRelay(_) => 6
    case WithdrawCold => HOP_COUNT
  }

  /** The transfers the route allows: a relay and the slots it owns, and slot to slot. */
  predicate RouteEdge(kind: Kind, n: nat, from: Account, to: Account) {
    && OnRoute(kind, n, from) && OnRoute(kind, n, to)
    && match (from, to)
       case (DepositCold, DepositRelay(r)) => Active(r, n)
       case (DepositRelay(r), Batch(b, i)) => b == 0 && InSlice(r, i, n)
       case (Source(i), Batch(b, j)) => b == 0 && i == j
       case (Batch(b, i), Batch(c, j)) => c == b + 1 && i == j
       case (Batch(b, i), Target(j)) => b == BATCH_COUNT - 1 && i == j
       case (Batch(b, i), WithdrawRelay(r)) => b == BATCH_COUNT - 1 && InSlice(r, i, n)
       case (WithdrawRelay(_), WithdrawCold) => true
       case _ => false
  }

  /** Whether money bound for slot i passes through the wallet. */
  predicate Serves(n: nat, a: Account, i: nat) {
    match a
    case DepositCold => i < n
    case DepositRelay(r) => InSlice(r, i, n)
    case Batch(_, j) => i == j
    case Target(j) => i == j
    case Source(j) => i == j
    case WithdrawRelay(r) => InSlice(r, i, n)
    case WithdrawCold => i < n
  }

  /** Money only moves to the next stage, and only between wallets that serve a common
      slot; a withdraw relay without slots may still pay the cold wallet. */
  lemma EdgesMoveForward(kind: Kind, n: nat, from: Account, to: Account)
    requires RouteEdge(kind, n, from, to)
    ensures Stage(kind, to) == Stage(kind, from) + 1
    ensures to.WithdrawCold? || exists i :: Serves(n, from, i) && Serves(n, to, i)
  {
    if from.DepositCold? {
      SliceMono(to.r + 1, RELAY_COUNT, n);
      SlicesTile(n, 0);
      assert Serves(n, from, SliceStart(to.r, n)) && Serves(n, to, SliceStart(to.r, n));
    } else if from.Batch? {
      assert Serves(n, from, from.i) && Serves(n, to, from.i);
    } else if to.Batch? {
      assert Serves(n, from, to.i) && Serves(n, to, to.i);
    }
  }

  /** Every slot has a path of seven transfers from the deposit wallet to its own target. */
  lemma EverySlotIsReached(n: nat, i: nat) returns (r: nat)
    requires i < n
    ensures RouteEdge(Distribute, n, DepositCold, DepositRelay(r))
    ensures RouteEdge(Distribute, n, DepositRelay(r), Batch(0, i))
    ensures forall b: nat :: b < 4 ==> RouteEdge(Distribute, n, Batch(b, i), Batch(b + 1, i))
    ensures RouteEdge(Distribute, n, Batch(4, i), Target(i))
  {
    r := EverySlotHasOneRelay(n, i);
  }

  /** And one from its own source to the withdraw wallet. */
  lemma EverySourceIsCollected(n: nat, i: nat) returns (r: nat)
    requires i < n
    ensures RouteEdge(Withdraw, n, Source(i), Batch(0, i))
    ensures forall b: nat :: b < 4 ==> RouteEdge(Withdraw, n, Batch(b, i), Batch(b + 1, i))
    ensures RouteEdge(Withdraw, n, Batch(4, i), WithdrawRelay(r))
    ensures RouteEdge(Withdraw, n, WithdrawRelay(r), WithdrawCold)
  {
    r := EverySlotHasOneRelay(n, i);
  }

  /** The paths are the only ones: distributing, no wallet is paid by two others; withdrawing, none pays two others. */
  lemma PathsAreUnique(kind: Kind, n: nat, from: Account, to: Account, other: Account)
    ensures kind.Distribute? && RouteEdge(kind, n, from, to) && RouteEdge(kind, n, other, to) ==> from == other
    ensures kind.Withdraw? && RouteEdge(kind, n, from, to) && RouteEdge(kind, n, from, other) ==> to == other
  {
    if from.DepositRelay? && other.DepositRelay? && to.Batch? && InSlice(from.r, to.i, n) && InSlice(other.r, to.i, n) {
      OneOwner(n, to.i, from.r, other.r);
    }
    if to.WithdrawRelay? && other.WithdrawRelay? && from.Batch? && InSlice(to.r, from.i, n)
       && InSlice(other.r, from.i, n) {
      OneOwner(n, from.i, to.r, other.r);
    }
  }

  ghost predicate Edge(hop: Hop, from: Account, to: Account) {
    || (exists k :: 0 <= k < |hop.splits| && hop.splits[k].from == from && to in hop.splits[k].to)
    || (exists k :: 0 <= k < |hop.sweeps| && hop.sweeps[k] == SweepSpec(from, to))
  }

  /** A hop moves exactly what the route allows out of one stage. */
  ghost predicate MovesStage(kind: Kind, n: nat, hop: Hop, stage: nat) {
    forall from, to :: Edge(hop, from, to) <==> RouteEdge(kind, n, from, to) && Stage(kind, from) == stage
  }

  predicate DistinctAccounts(group: seq<Account>) {
    forall x, y :: 0 <= x < y < |group| ==> group[x] != group[y]
  }

  /** Nobody sends twice in a hop, by split or by sweep, and no split pays anyone twice. */
  ghost predicate OncePerSender(hop: Hop) {
    && (forall j, k :: 0 <= j < k < |hop.splits| ==> hop.splits[j].from != hop.splits[k].from)
    && (forall j, k :: 0 <= j < k < |hop.sweeps| ==> hop.sweeps[j].from != hop.sweeps[k].from)
    && (hop.splits == [] || hop.sweeps == [])
    && (forall k :: 0 <= k < |hop.splits| ==> DistinctAccounts(hop.splits[k].to))
  }

  // ---------------------------------------------------------------------
  // Building the route
  // ---------------------------------------------------------------------

  function BatchAccounts(b: nat, n: nat): (s: seq<Account>)
    ensures |s| == n
  {
    seq(n, (i: nat) => Batch(b, i))
  }

  function TargetAccounts(n: nat): (s: seq<Account>)
    ensures |s| == n
  {
    seq(n, (i: nat) => Target(i))
  }

  function SourceAccounts(n: nat): (s: seq<Account>)
    ensures |s| == n
  {
    seq(n, (i: nat) => Source(i))
  }

  /** A hop that sweeps one to one. */
  ghost predicate Sweeps(hop: Hop, from: seq<Account>, to: seq<Account>) {
    && |from| == |to| == |hop.sweeps| && hop.splits == []
    && forall i :: 0 <= i < |from| ==> hop.sweeps[i] == SweepSpec(from[i], to[i])
  }

  /** Pairs senders with recipients one to one. */
  method SweepHop(from: seq<Account>, to: seq<Account>) returns (hop: Hop)
    requires |from| == |to|
    ensures Sweeps(hop, from, to)
  {
    var sweeps := [];
    for i := 0 to |from|
      invariant |sweeps| == i
      invariant forall j :: 0 <= j < i ==> sweeps[j] == SweepSpec(from[j], to[j])
    {
      sweeps := sweeps + [SweepSpec(from[i], to[i])];
    }
    hop := Hop([], sweeps);
  }

  lemma BatchHopMoves(kind: Kind, n: nat, b: nat, hop: Hop)
    requires b + 1 < BATCH_COUNT && Sweeps(hop, BatchAccounts(b, n), BatchAccounts(b + 1, n))
    ensures MovesStage(kind, n, hop, Stage(kind, Batch(b, 0))) && OncePerSender(hop)
  {
    forall a, c | RouteEdge(kind, n, a, c) && Stage(kind, a) == Stage(kind, Batch(b, 0))
      ensures Edge(hop, a, c)
    {
      assert hop.sweeps[a.i] == SweepSpec(a, c);
    }
  }

  lemma TargetHopMoves(n: nat, hop: Hop)
    requires Sweeps(hop, BatchAccounts(BATCH_COUNT - 1, n), TargetAccounts(n))
    ensures MovesStage(Distribute, n, hop, 6) && OncePerSender(hop)
  {
    forall a, c | RouteEdge(Distribute, n, a, c) && Stage(Distribute, a) == 6
      ensures Edge(hop, a, c)
    {
      assert hop.sweeps[a.i] == SweepSpec(a, c);
    }
  }

  lemma SourceHopMoves(n: nat, hop: Hop)
    requires Sweeps(hop, SourceAccounts(n), BatchAccounts(0, n))
    ensures MovesStage(Withdraw, n, hop, 0) && OncePerSender(hop)
  {
    forall a, c | RouteEdge(Withdraw, n, a, c) && Stage(Withdraw, a) == 0
      ensures Edge(hop, a, c)
    {
      assert hop.sweeps[a.i] == SweepSpec(a, c);
    }
  }

  /** The first batch's wallets a relay pays. */
  function RelaySlots(r: nat, n: nat): (s: seq<Account>)
    ensures forall i: nat :: Batch(0, i) in s <==> InSlice(r, i, n)
    ensures forall a :: a in s ==> a.Batch? && a.b == 0
    ensures forall x, y :: 0 <= x < y < |s| ==> s[x] != s[y]
  {
    SliceMono(r, r + 1, n);
    var start := SliceStart(r, n);
    var s := seq(SliceStart(r + 1, n) - start, (k: nat) => Batch(0, start + k));
    assert forall i: nat :: InSlice(r, i, n) ==> s[i - start] == Batch(0, i);
    s
  }

  lemma SlotsAreSlice(r: nat, n: nat)
    requires SliceStart(r, n) <= SliceStart(r + 1, n) <= n
    ensures BatchAccounts(0, n)[SliceStart(r, n)..SliceStart(r + 1, n)] == RelaySlots(r, n)
  {
  }

  /** One split per active relay among the first k, over the slots it owns. */
  ghost predicate RelaySplits(n: nat, k: nat, splits: seq<SplitSpec>, active: seq<Account>) {
    && |active| == |splits|
    && (forall j :: 0 <= j < |active| ==> active[j].DepositRelay? && active[j].r < k && Active(active[j].r, n))
    && (forall j :: 0 <= j < |splits| ==>
          active[j].DepositRelay? && splits[j] == SplitSpec(active[j], RelaySlots(active[j].r, n)))
    && (forall i, j :: 0 <= i < j < |active| ==>
          active[i].DepositRelay? && active[j].DepositRelay? && active[i].r < active[j].r)
    && (forall r: nat :: r < k && Active(r, n) ==> DepositRelay(r) in active)
  }

  lemma ColdHopMoves(n: nat, splits: seq<SplitSpec>, active: seq<Account>)
    requires RelaySplits(n, RELAY_COUNT, splits, active)
    ensures MovesStage(Distribute, n, Hop([SplitSpec(DepositCold, active)], []), 0)
    ensures OncePerSender(Hop([SplitSpec(DepositCold, active)], []))
  {
    var hop := Hop([SplitSpec(DepositCold, active)], []);
    forall a, c | RouteEdge(Distribute, n, a, c) && Stage(Distribute, a) == 0
      ensures Edge(hop, a, c)
    {
      assert hop.splits[0].from == a && c in hop.splits[0].to;
    }
  }

  lemma RelayHopOnce(n: nat, splits: seq<SplitSpec>, active: seq<Account>)
    requires RelaySplits(n, RELAY_COUNT, splits, active)
    ensures OncePerSender(Hop(splits, []))
  {
    forall j, k | 0 <= j < k < |splits|
      ensures splits[j].from != splits[k].from
    {
      assert splits[j].from == active[j] && splits[k].from == active[k];
    }
  }

  lemma RelayHopReaches(n: nat, splits: seq<SplitSpec>, active: seq<Account>, a: Account, c: Account)
    requires RelaySplits(n, RELAY_COUNT, splits, active) && RouteEdge(Distribute, n, a, c) && a.DepositRelay?
    ensures Edge(Hop(splits, []), a, c)
  {
    assert a in active;
    var k :| 0 <= k < |splits| && active[k] == a;
    var hop := Hop(splits, []);
    assert hop.splits[k].from == a && c in hop.splits[k].to;
  }

  lemma RelayHopKeeps(n: nat, splits: seq<SplitSpec>, active: seq<Account>, a: Account, c: Account)
    requires RelaySplits(n, RELAY_COUNT, splits, active) && Edge(Hop(splits, []), a, c)
    ensures RouteEdge(Distribute, n, a, c) && a.DepositRelay?
  {
    var k :| 0 <= k < |splits| && splits[k].from == a && c in splits[k].to;
    assert active[k] == a;
    assert c in RelaySlots(a.r, n);
    SlicesTile(n, 0);
    SliceMono(a.r + 1, RELAY_COUNT, n);
  }

  lemma RelayHopMoves(n: nat, splits: seq<SplitSpec>, active: seq<Account>)
    requires RelaySplits(n, RELAY_COUNT, splits, active)
    ensures MovesStage(Distribute, n, Hop(splits, []), 1) && OncePerSender(Hop(splits, []))
  {
    RelayHopOnce(n, splits, active);
    forall a, c
      ensures Edge(Hop(splits, []), a, c) <==> RouteEdge(Distribute, n, a, c) && Stage(Distribute, a) == 1
    {
      if Edge(Hop(splits, []), a, c) {
        RelayHopKeeps(n, splits, active, a, c);
      }
      if RouteEdge(Distribute, n, a, c) && a.DepositRelay? {
        RelayHopReaches(n, splits, active, a, c);
      }
    }
  }

  lemma RelaySplitsMore(n: nat, r: nat, splits: seq<SplitSpec>, active: seq<Account>)
    requires RelaySplits(n, r, splits, active) && Active(r, n)
    ensures RelaySplits(n, r + 1, splits + [SplitSpec(DepositRelay(r), RelaySlots(r, n))], active + [DepositRelay(r)])
  {
    forall q: nat | q < r + 1 && Active(q, n)
      ensures DepositRelay(q) in active + [DepositRelay(r)]
    {
      assert q < r ==> DepositRelay(q) in active;
    }
  }

  method SplitRelays(n: nat) returns (splits: seq<SplitSpec>, active: seq<Account>)
    ensures RelaySplits(n, RELAY_COUNT, splits, active)
  {
    splits, active := [], [];
    for r := 0 to RELAY_COUNT
      invariant RelaySplits(n, r, splits, active)
    {
      var start, end := SliceStart(r, n), SliceStart(r + 1, n);
      SlicesTile(n, 0);
      SliceMono(r, r + 1, n);
      SliceMono(r + 1, RELAY_COUNT, n);
      if start == end {
        continue;
      }
      SlotsAreSlice(r, n);
      RelaySplitsMore(n, r, splits, active);
      active := active + [DepositRelay(r)];
      splits := splits + [SplitSpec(DepositRelay(r), BatchAccounts(0, n)[start..end])];
    }
  }

  /** Slot by slot, the last batch pays the relay that owns the slot. */
  ghost predicate Gathers(n: nat, sweeps: seq<SweepSpec>, k: nat) {
    && |sweeps| == k
    && forall i :: 0 <= i < k ==>
         && sweeps[i].from == Batch(BATCH_COUNT - 1, i) && sweeps[i].to.WithdrawRelay?
         && sweeps[i].to.r < RELAY_COUNT && InSlice(sweeps[i].to.r, i, n)
  }

  method GatherIntoRelays(n: nat) returns (hop: Hop)
    ensures hop.splits == [] && Gathers(n, hop.sweeps, n)
  {
    var sweeps: seq<SweepSpec> := [];
    SlicesTile(n, 0);
    for r := 0 to RELAY_COUNT
      invariant Gathers(n, sweeps, SliceStart(r, n))
    {
      var start, end := SliceStart(r, n), SliceStart(r + 1, n);
      SliceMono(r, r + 1, n);
      for i := start to end
        invariant Gathers(n, sweeps, i)
      {
        sweeps := sweeps + [SweepSpec(Batch(BATCH_COUNT - 1, i), WithdrawRelay(r))];
      }
    }
    hop := Hop([], sweeps);
  }

  lemma GatherHopMoves(n: nat, hop: Hop)
    requires hop.splits == [] && Gathers(n, hop.sweeps, n)
    ensures MovesStage(Withdraw, n, hop, BATCH_COUNT) && OncePerSender(hop)
  {
    forall a, c | RouteEdge(Withdraw, n, a, c) && Stage(Withdraw, a) == BATCH_COUNT
      ensures Edge(hop, a, c)
    {
      OneOwner(n, a.i, c.r, hop.sweeps[a.i].to.r);
      assert hop.sweeps[a.i] == SweepSpec(a, c);
    }
  }

  method RelaysToCold() returns (hop: Hop)
    ensures Sweeps(hop, seq(RELAY_COUNT, (r: nat) => WithdrawRelay(r)), seq(RELAY_COUNT, _ => WithdrawCold))
  {
    var sweeps: seq<SweepSpec> := [];
    for r := 0 to RELAY_COUNT
      invariant |sweeps| == r
      invariant forall j :: 0 <= j < r ==> sweeps[j] == SweepSpec(WithdrawRelay(j), WithdrawCold)
    {
      sweeps := sweeps + [SweepSpec(WithdrawRelay(r), WithdrawCold)];
    }
    hop := Hop([], sweeps);
  }

  lemma PayColdHopMoves(n: nat, hop: Hop)
    requires Sweeps(hop, seq(RELAY_COUNT, (r: nat) => WithdrawRelay(r)), seq(RELAY_COUNT, _ => WithdrawCold))
    ensures MovesStage(Withdraw, n, hop, 6) && OncePerSender(hop)
  {
    forall a, c | RouteEdge(Withdraw, n, a, c) && Stage(Withdraw, a) == 6
      ensures Edge(hop, a, c)
    {
      assert hop.sweeps[a.r] == SweepSpec(a, c);
    }
  }

  /** With a target at all, no sender is asked to fan out to nobody. */
  predicate NoEmptySplit(hop: Hop) {
    forall k :: 0 <= k < |hop.splits| ==> hop.splits[k].to != []
  }

  lemma SplitsReachSomeone(n: nat, splits: seq<SplitSpec>, active: seq<Account>)
    requires RelaySplits(n, RELAY_COUNT, splits, active)
    ensures NoEmptySplit(Hop(splits, []))
    ensures 0 < n ==> NoEmptySplit(Hop([SplitSpec(DepositCold, active)], []))
  {
    forall k | 0 <= k < |splits|
      ensures splits[k].to != []
    {
      assert Batch(0, SliceStart(active[k].r, n)) in RelaySlots(active[k].r, n);
    }
    if 0 < n {
      var r := EverySlotHasOneRelay(n, 0);
      assert DepositRelay(r) in active;
    }
  }

  /** Every hop moves exactly one stage of the route, each sender once. */
  ghost predicate FullRoute(kind: Kind, n: nat, hops: seq<Hop>) {
    && |hops| == HOP_COUNT
    && forall h :: 0 <= h < HOP_COUNT ==> MovesStage(kind, n, hops[h], h) && OncePerSender(hops[h])
  }

  /** The hops that forward each batch to the next, from the given stage on. */
  method BatchHops(kind: Kind, n: nat) returns (hops: seq<Hop>)
    ensures |hops| == BATCH_COUNT - 1
    ensures forall b :: 0 <= b < |hops| ==>
              MovesStage(kind, n, hops[b], Stage(kind, Batch(b, 0))) && OncePerSender(hops[b]) && NoEmptySplit(hops[b])
  {
    hops := [];
    for b := 0 to BATCH_COUNT - 1
      invariant |hops| == b
      invariant forall c :: 0 <= c < b ==>
                  && MovesStage(kind, n, hops[c], Stage(kind, Batch(c, 0)))
                  && OncePerSender(hops[c]) && NoEmptySplit(hops[c])
    {
      var hop := SweepHop(BatchAccounts(b, n), BatchAccounts(b + 1, n));
      BatchHopMoves(kind, n, b, hop);
      hops := hops + [hop];
    }
  }

  method DistributionHops(n: nat) returns (hops: seq<Hop>)
    ensures FullRoute(Distribute, n, hops)
    ensures 0 < n ==> forall h :: 0 <= h < |hops| ==> NoEmptySplit(hops[h])
  {
    var splits, active := SplitRelays(n);
    ColdHopMoves(n, splits, active);
    RelayHopMoves(n, splits, active);
    SplitsReachSomeone(n, splits, active);
    var forwards := BatchHops(Distribute, n);
    var last := SweepHop(BatchAccounts(BATCH_COUNT - 1, n), TargetAccounts(n));
    TargetHopMoves(n, last);
    hops := [Hop([SplitSpec(DepositCold, active)], []), Hop(splits, [])] + forwards + [last];
    assert forall h :: 2 <= h < 6 ==> hops[h] == forwards[h - 2];
  }

  method WithdrawalHops(n: nat) returns (hops: seq<Hop>)
    ensures FullRoute(Withdraw, n, hops) && forall h :: 0 <= h < |hops| ==> NoEmptySplit(hops[h])
  {
    var first := SweepHop(SourceAccounts(n), BatchAccounts(0, n));
    SourceHopMoves(n, first);
    var forwards := BatchHops(Withdraw, n);
    var gather := GatherIntoRelays(n);
    GatherHopMoves(n, gather);
    var last := RelaysToCold();
    PayColdHopMoves(n, last);
    hops := [first] + forwards + [gather, last];
    assert forall h :: 1 <= h < 5 ==> hops[h] == forwards[h - 1];
  }

  method BuildFundingHops(kind: Kind, n: nat) returns (hops: seq<Hop>)
    ensures FullRoute(kind, n, hops)
    ensures 0 < n ==> forall h :: 0 <= h < |hops| ==> NoEmptySplit(hops[h])
  {
    match kind {
      case Distribute => hops := DistributionHops(n);
      case Withdraw => hops := WithdrawalHops(n);
    }
  }
}
