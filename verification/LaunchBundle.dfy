/** The client side of the atomic launch: every maker in the bundle is made
    sure to have its spend parked in the router under the treasury. */
module LaunchBundle {
  import opened Decide
  import opened Optional
  import opened Router
  import opened RouterSafety

  datatype BundleBuy = BundleBuy(wallet: Address, spend: int)

  /** What the chain answers one maker: the deposit read, the gas it would cost,
      whether the deposit is sent, mined, and its receipt seen in time. */
  datatype MakerWorld = MakerWorld(readFails: bool, gasCost: Option<nat>, sendFails: bool, mined: bool,
                                   receiptSeen: bool)

  /** The bundle entry a maker ends with, if any, from the router state it reads. */
  function Kept(s: Storage, treasury: Address, buy: BundleBuy, world: MakerWorld): Option<BundleBuy> {
    var have := Get(s.deposits, buy.wallet);
    if have > 0 && Get(s.operatorOf, buy.wallet) != treasury then None
    else if buy.spend - have <= 0 then Some(buy)
    else if world.gasCost.None? then None
    else if buy.spend - have - world.gasCost.value <= 0 then
      if have > 0 then Some(buy.(spend := have)) else None
    else if !world.sendFails && world.mined && world.receiptSeen then
      Some(buy.(spend := buy.spend - world.gasCost.value))
    else None
  }

  /** What is parked for a maker once its worker is through: its gap less the gas, when a deposit is made at all. */
  function DepositAfter(s: Storage, treasury: Address, buy: BundleBuy, world: MakerWorld): nat {
    var have := Get(s.deposits, buy.wallet);
    if (have == 0 || Get(s.operatorOf, buy.wallet) == treasury) && world.gasCost.Some?
       && have + world.gasCost.value < buy.spend && !world.sendFails && world.mined
    then buy.spend - world.gasCost.value
    else have
  }

  /** The kept entries in the original order. */
  function KeptInOrder(s: Storage, treasury: Address, buys: seq<BundleBuy>, worlds: seq<MakerWorld>): seq<BundleBuy>
    requires |worlds| == |buys|
  {
    if buys == [] then []
    else
      var n := |buys| - 1;
      KeptInOrder(s, treasury, buys[..n], worlds[..n])
      + match Kept(s, treasury, buys[n], worlds[n]) case Some(b) => [b] case None => []
  }

  /** Each wallet of the list appears once. */
  predicate DistinctWallets(buys: seq<BundleBuy>) {
    forall i, j :: 0 <= i < j < |buys| ==> buys[i].wallet != buys[j].wallet
  }

  /** The router can fill the buy: the operator is right and the spend is covered. */
  predicate Funded(s: Storage, treasury: Address, buy: BundleBuy) {
    Get(s.operatorOf, buy.wallet) == treasury && 0 < buy.spend <= Get(s.deposits, buy.wallet)
  }

  /** The router reads the same for a wallet in both states. */
  predicate SameFor(s: Storage, t: Storage, w: Address) {
    Get(s.deposits, w) == Get(t.deposits, w) && Get(s.operatorOf, w) == Get(t.operatorOf, w)
  }

  predicate Distinct(s: seq<nat>) {
    forall j, k :: 0 <= j < k < |s| ==> s[j] != s[k]
  }

  /** Each kept entry is what its maker ends with, and is funded now. */
  predicate KeptFrom(s0: Storage, now: Storage, treasury: Address, buys: seq<BundleBuy>, worlds: seq<MakerWorld>,
                     kept: seq<BundleBuy>, at: seq<nat>)
    requires |worlds| == |buys|
  {
    && |at| == |kept|
    && forall j :: 0 <= j < |kept| ==>
         && at[j] < |buys|
         && kept[j].wallet == buys[at[j]].wallet
         && Kept(s0, treasury, buys[at[j]], worlds[at[j]]) == Some(kept[j])
         && Funded(now, treasury, kept[j])
  }

  /** Each pending deposit will be kept exactly when it is mined and its receipt is seen. */
  predicate PendingFrom(s0: Storage, now: Storage, treasury: Address, buys: seq<BundleBuy>, worlds: seq<MakerWorld>,
                        pendings: seq<(BundleBuy, MakerWorld)>, at: seq<nat>)
    requires |worlds| == |buys|
  {
    && |at| == |pendings|
    && forall j :: 0 <= j < |pendings| ==>
         && at[j] < |buys|
         && pendings[j].0.wallet == buys[at[j]].wallet
         && pendings[j].1 == worlds[at[j]]
         && Kept(s0, treasury, buys[at[j]], worlds[at[j]])
            == (if worlds[at[j]].mined && worlds[at[j]].receiptSeen then Some(pendings[j].0) else None)
         && (worlds[at[j]].mined ==> Funded(now, treasury, pendings[j].0))
  }

  /** Another maker's action leaves the kept entries funded. */
  lemma KeptStays(s0: Storage, was: Storage, now: Storage, treasury: Address, buys: seq<BundleBuy>,
                  worlds: seq<MakerWorld>,
                  kept: seq<BundleBuy>, at: seq<nat>, i: nat)
    requires |worlds| == |buys| && DistinctWallets(buys) && i < |buys|
    requires KeptFrom(s0, was, treasury, buys, worlds, kept, at)
    requires forall j :: 0 <= j < |at| ==> at[j] != i
    requires forall v :: v != buys[i].wallet ==> SameFor(was, now, v)
    ensures KeptFrom(s0, now, treasury, buys, worlds, kept, at)
  {
    forall j | 0 <= j < |kept|
      ensures Funded(now, treasury, kept[j])
    {
      assert kept[j].wallet != buys[i].wallet;
      assert SameFor(was, now, kept[j].wallet);
    }
  }

  lemma PendingStays(s0: Storage, was: Storage, now: Storage, treasury: Address, buys: seq<BundleBuy>,
                     worlds: seq<MakerWorld>,
                     pendings: seq<(BundleBuy, MakerWorld)>, at: seq<nat>, i: nat)
    requires |worlds| == |buys| && DistinctWallets(buys) && i < |buys|
    requires PendingFrom(s0, was, treasury, buys, worlds, pendings, at)
    requires forall j :: 0 <= j < |at| ==> at[j] != i
    requires forall v :: v != buys[i].wallet ==> SameFor(was, now, v)
    ensures PendingFrom(s0, now, treasury, buys, worlds, pendings, at)
  {
    forall j | 0 <= j < |pendings| && worlds[at[j]].mined
      ensures Funded(now, treasury, pendings[j].0)
    {
      assert pendings[j].0.wallet != buys[i].wallet;
      assert SameFor(was, now, pendings[j].0.wallet);
    }
  }

  /** The workers of a bundle of n makers finish in this order, each once. */
  predicate Schedule(order: seq<nat>, n: nat) {
    && |order| == n && Distinct(order)
    && (forall k :: 0 <= k < |order| ==> order[k] < n)
    && (forall i :: 0 <= i < n ==> i in order)
  }

  /** Every maker that finished either is listed or ends with nothing. */
  predicate Covers(s0: Storage, treasury: Address, buys: seq<BundleBuy>, worlds: seq<MakerWorld>,
                   keptAt: seq<nat>, pendingAt: seq<nat>, finished: seq<nat>)
    requires |worlds| == |buys|
  {
    forall i :: i in finished && i < |buys| ==>
      i in keptAt || i in pendingAt || Kept(s0, treasury, buys[i], worlds[i]) == None
  }

  /** No maker is listed twice, on one list or across both. */
  ghost predicate Once(keptAt: seq<nat>, pendingAt: seq<nat>) {
    forall i {:trigger multiset(keptAt)[i]} {:trigger multiset(pendingAt)[i]} ::
      multiset(keptAt)[i] + multiset(pendingAt)[i] <= 1
  }

  lemma OnceIsDistinct(at: seq<nat>)
    requires Once(at, [])
    ensures Distinct(at)
  {
    forall j, k | 0 <= j < k < |at|
      ensures at[j] != at[k]
    {
      assert at == at[..j] + [at[j]] + at[j + 1..k] + [at[k]] + at[k + 1..];
      assert multiset(at)[at[j]] <= 1;
    }
  }

  /** Where the makers that finished stand. */
  ghost predicate Progress(s0: Storage, now: Storage, treasury: Address, buys: seq<BundleBuy>,
                           worlds: seq<MakerWorld>, finished: seq<nat>,
                           kept: seq<BundleBuy>, keptAt: seq<nat>,
                           pendings: seq<(BundleBuy, MakerWorld)>, pendingAt: seq<nat>)
    requires |worlds| == |buys|
  {
    && KeptFrom(s0, now, treasury, buys, worlds, kept, keptAt)
    && PendingFrom(s0, now, treasury, buys, worlds, pendings, pendingAt)
    && Once(keptAt, pendingAt)
    && (forall i :: i in keptAt || i in pendingAt ==> i in finished)
    && Covers(s0, treasury, buys, worlds, keptAt, pendingAt, finished)
  }

  /** The deposits of the makers that finished are what their workers left. */
  predicate AllParked(s0: Storage, now: Storage, treasury: Address, buys: seq<BundleBuy>, worlds: seq<MakerWorld>,
                      finished: seq<nat>)
    requires |worlds| == |buys|
  {
    forall i :: i in finished && i < |buys| ==>
      Get(now.deposits, buys[i].wallet) == DepositAfter(s0, treasury, buys[i], worlds[i])
  }

  lemma ParkedStays(s0: Storage, was: Storage, now: Storage, treasury: Address, buys: seq<BundleBuy>,
                    worlds: seq<MakerWorld>, finished: seq<nat>, i: nat)
    requires |worlds| == |buys| && DistinctWallets(buys) && i < |buys| && i !in finished
    requires AllParked(s0, was, treasury, buys, worlds, finished)
    requires forall v :: v != buys[i].wallet ==> SameFor(was, now, v)
    requires Get(now.deposits, buys[i].wallet) == DepositAfter(s0, treasury, buys[i], worlds[i])
    ensures AllParked(s0, now, treasury, buys, worlds, finished + [i])
  {
    forall j | j in finished && j < |buys|
      ensures SameFor(was, now, buys[j].wallet)
    {
      assert buys[j].wallet != buys[i].wallet;
    }
  }

  predicate FundedList(now: Storage, treasury: Address, kept: seq<BundleBuy>) {
    forall j :: 0 <= j < |kept| ==> Funded(now, treasury, kept[j])
  }

  lemma ReorderStep(s0: Storage, now: Storage, treasury: Address, buys: seq<BundleBuy>, worlds: seq<MakerWorld>,
                    kept: seq<BundleBuy>, at: seq<nat>, order: seq<nat>, i: nat)
    requires |worlds| == |buys| && DistinctWallets(buys) && KeptFrom(s0, now, treasury, buys, worlds, kept, at)
    requires Distinct(at) && Schedule(order, |buys|) && Covers(s0, treasury, buys, worlds, at, [], order) && i < |buys|
    ensures KeptInOrder(s0, treasury, buys[..i + 1], worlds[..i + 1])
            == KeptInOrder(s0, treasury, buys[..i], worlds[..i]) + KeptOf(kept, buys[i].wallet)
    ensures FundedList(now, treasury, KeptOf(kept, buys[i].wallet))
  {
    KeptOfMaker(s0, now, treasury, buys, worlds, kept, at, order, i);
    KeptInOrderSnoc(s0, treasury, buys, worlds, i);
  }

  /** Every deposit is what its worker left, and the list is the kept makers in their order, each funded. */
  ghost predicate Ensured(s0: Storage, now: Storage, treasury: Address, buys: seq<BundleBuy>, worlds: seq<MakerWorld>,
                          kept: seq<BundleBuy>)
    requires |worlds| == |buys|
  {
    && kept == KeptInOrder(s0, treasury, buys, worlds) && FundedList(now, treasury, kept)
    && forall i :: 0 <= i < |buys| ==>
         Get(now.deposits, buys[i].wallet) == DepositAfter(s0, treasury, buys[i], worlds[i])
  }

  lemma AllAreParked(s0: Storage, now: Storage, treasury: Address, buys: seq<BundleBuy>, worlds: seq<MakerWorld>,
                     order: seq<nat>)
    requires |worlds| == |buys| && Schedule(order, |buys|) && AllParked(s0, now, treasury, buys, worlds, order)
    ensures forall i :: 0 <= i < |buys| ==>
              Get(now.deposits, buys[i].wallet) == DepositAfter(s0, treasury, buys[i], worlds[i])
  {
    assert forall i :: 0 <= i < |buys| ==> i in order;
  }

  lemma EnsuredAreFunded(s0: Storage, now: Storage, treasury: Address, buys: seq<BundleBuy>, worlds: seq<MakerWorld>,
                         kept: seq<BundleBuy>)
    requires |worlds| == |buys| && DistinctWallets(buys) && Ensured(s0, now, treasury, buys, worlds, kept)
    ensures (forall i :: 0 <= i < |buys| ==> buys[i].wallet != 0) ==> AllFunded(now, treasury, kept)
  {
    KeptIsSublist(s0, treasury, buys, worlds);
    var from: seq<nat> :| SublistAt(kept, buys, from);
    SublistIsDistinct(kept, buys, from);
  }

  lemma OnceMore(a: seq<nat>, b: seq<nat>, i: nat)
    requires Once(a, b) && i !in a && i !in b
    ensures Once(a + [i], b) && Once(a, b + [i])
  {
    assert multiset(a)[i] == 0 && multiset(b)[i] == 0;
    assert multiset(a + [i]) == multiset(a) + multiset{i};
    assert multiset(b + [i]) == multiset(b) + multiset{i};
    forall j
      ensures multiset(a + [i])[j] + multiset(b)[j] <= 1
      ensures multiset(a)[j] + multiset(b + [i])[j] <= 1
    {
      assert multiset(a)[j] + multiset(b)[j] <= 1;
    }
  }

  /** One more maker finishes: what was listed stays, whoever it is. */
  lemma ProgressStays(s0: Storage, was: Storage, now: Storage, treasury: Address, buys: seq<BundleBuy>,
                      worlds: seq<MakerWorld>,
                      finished: seq<nat>, i: nat, kept: seq<BundleBuy>, keptAt: seq<nat>,
                      pendings: seq<(BundleBuy, MakerWorld)>, pendingAt: seq<nat>)
    requires |worlds| == |buys| && DistinctWallets(buys) && i < |buys| && i !in finished
    requires Progress(s0, was, treasury, buys, worlds, finished, kept, keptAt, pendings, pendingAt)
    requires forall v :: v != buys[i].wallet ==> SameFor(was, now, v)
    ensures KeptFrom(s0, now, treasury, buys, worlds, kept, keptAt)
    ensures PendingFrom(s0, now, treasury, buys, worlds, pendings, pendingAt)
    ensures Once(keptAt + [i], pendingAt) && Once(keptAt, pendingAt + [i])
  {
    assert forall j :: 0 <= j < |keptAt| ==> keptAt[j] in keptAt;
    assert forall j :: 0 <= j < |pendingAt| ==> pendingAt[j] in pendingAt;
    KeptStays(s0, was, now, treasury, buys, worlds, kept, keptAt, i);
    PendingStays(s0, was, now, treasury, buys, worlds, pendings, pendingAt, i);
    OnceMore(keptAt, pendingAt, i);
  }

  lemma ListNone(s0: Storage, was: Storage, now: Storage, treasury: Address, buys: seq<BundleBuy>,
                 worlds: seq<MakerWorld>,
                 finished: seq<nat>, i: nat, kept: seq<BundleBuy>, keptAt: seq<nat>,
                 pendings: seq<(BundleBuy, MakerWorld)>, pendingAt: seq<nat>)
    requires |worlds| == |buys| && DistinctWallets(buys) && i < |buys| && i !in finished
    requires Progress(s0, was, treasury, buys, worlds, finished, kept, keptAt, pendings, pendingAt)
    requires forall v :: v != buys[i].wallet ==> SameFor(was, now, v)
    requires Kept(s0, treasury, buys[i], worlds[i]) == None
    ensures Progress(s0, now, treasury, buys, worlds, finished + [i], kept, keptAt, pendings, pendingAt)
  {
    ProgressStays(s0, was, now, treasury, buys, worlds, finished, i, kept, keptAt, pendings, pendingAt);
  }

  lemma ListKept(s0: Storage, was: Storage, now: Storage, treasury: Address, buys: seq<BundleBuy>,
                 worlds: seq<MakerWorld>,
                 finished: seq<nat>, i: nat, kept: seq<BundleBuy>, keptAt: seq<nat>,
                 pendings: seq<(BundleBuy, MakerWorld)>, pendingAt: seq<nat>, entry: BundleBuy)
    requires |worlds| == |buys| && DistinctWallets(buys) && i < |buys| && i !in finished
    requires Progress(s0, was, treasury, buys, worlds, finished, kept, keptAt, pendings, pendingAt)
    requires forall v :: v != buys[i].wallet ==> SameFor(was, now, v)
    requires Kept(s0, treasury, buys[i], worlds[i]) == Some(entry) && entry.wallet == buys[i].wallet
    requires Funded(now, treasury, entry)
    ensures Progress(s0, now, treasury, buys, worlds, finished + [i], kept + [entry], keptAt + [i], pendings, pendingAt)
  {
    ProgressStays(s0, was, now, treasury, buys, worlds, finished, i, kept, keptAt, pendings, pendingAt);
  }

  lemma ListPending(s0: Storage, was: Storage, now: Storage, treasury: Address, buys: seq<BundleBuy>,
                    worlds: seq<MakerWorld>,
                 finished: seq<nat>, i: nat, kept: seq<BundleBuy>, keptAt: seq<nat>,
                 pendings: seq<(BundleBuy, MakerWorld)>, pendingAt: seq<nat>, entry: BundleBuy)
    requires |worlds| == |buys| && DistinctWallets(buys) && i < |buys| && i !in finished
    requires Progress(s0, was, treasury, buys, worlds, finished, kept, keptAt, pendings, pendingAt)
    requires forall v :: v != buys[i].wallet ==> SameFor(was, now, v)
    requires entry.wallet == buys[i].wallet && (worlds[i].mined ==> Funded(now, treasury, entry))
    requires Kept(s0, treasury, buys[i], worlds[i])
             == if worlds[i].mined && worlds[i].receiptSeen then Some(entry) else None
    ensures Progress(s0, now, treasury, buys, worlds, finished + [i], kept, keptAt, pendings + [(entry, worlds[i])],
                     pendingAt + [i])
  {
    ProgressStays(s0, was, now, treasury, buys, worlds, finished, i, kept, keptAt, pendings, pendingAt);
  }

  lemma ConfirmOne(s0: Storage, now: Storage, treasury: Address, buys: seq<BundleBuy>, worlds: seq<MakerWorld>,
                   kept: seq<BundleBuy>, at: seq<nat>, entry: BundleBuy, i: nat, rest: seq<nat>, order: seq<nat>)
    requires |worlds| == |buys| && KeptFrom(s0, now, treasury, buys, worlds, kept, at)
    requires Once(at, [i] + rest) && Covers(s0, treasury, buys, worlds, at, [i] + rest, order)
    requires i < |buys| && entry.wallet == buys[i].wallet
    requires Kept(s0, treasury, buys[i], worlds[i]) == Some(entry) && Funded(now, treasury, entry)
    ensures KeptFrom(s0, now, treasury, buys, worlds, kept + [entry], at + [i])
    ensures Once(at + [i], rest) && Covers(s0, treasury, buys, worlds, at + [i], rest, order)
  {
    assert multiset([i] + rest) == multiset{i} + multiset(rest);
    assert multiset(at + [i]) == multiset(at) + multiset{i};
  }

  lemma DropOne(s0: Storage, treasury: Address, buys: seq<BundleBuy>, worlds: seq<MakerWorld>,
                at: seq<nat>, i: nat, rest: seq<nat>, order: seq<nat>)
    requires |worlds| == |buys| && Once(at, [i] + rest) && Covers(s0, treasury, buys, worlds, at, [i] + rest, order)
    requires i < |buys| && Kept(s0, treasury, buys[i], worlds[i]) == None
    ensures Once(at, rest) && Covers(s0, treasury, buys, worlds, at, rest, order)
  {
    assert multiset([i] + rest) == multiset{i} + multiset(rest);
  }

  /** The kept entries of one wallet, in list order. */
  function KeptOf(kept: seq<BundleBuy>, w: Address): seq<BundleBuy> {
    if kept == [] then []
    else
      var n := |kept| - 1;
      KeptOf(kept[..n], w) + if kept[n].wallet == w then [kept[n]] else []
  }

  lemma {:induction false} KeptOfPrefix(s0: Storage, now: Storage, treasury: Address, buys: seq<BundleBuy>,
                                        worlds: seq<MakerWorld>,
                                        kept: seq<BundleBuy>, at: seq<nat>, i: nat, j: nat)
    requires |worlds| == |buys| && DistinctWallets(buys) && KeptFrom(s0, now, treasury, buys, worlds, kept, at)
    requires Distinct(at)
    requires i < |buys| && j <= |kept|
    ensures i in at[..j] ==>
              && Kept(s0, treasury, buys[i], worlds[i]).Some?
              && Funded(now, treasury, Kept(s0, treasury, buys[i], worlds[i]).value)
    ensures KeptOf(kept[..j], buys[i].wallet)
            == if i in at[..j] then [Kept(s0, treasury, buys[i], worlds[i]).value] else []
  {
    if j > 0 {
      KeptOfPrefix(s0, now, treasury, buys, worlds, kept, at, i, j - 1);
      assert at[..j] == at[..j - 1] + [at[j - 1]];
      KeptOfSnoc(kept, j - 1, buys[i].wallet);
      SameMaker(buys, i, at[j - 1]);
      OnceAt(at, j - 1);
    }
  }

  lemma KeptOfSnoc(kept: seq<BundleBuy>, j: nat, w: Address)
    requires j < |kept|
    ensures KeptOf(kept[..j + 1], w) == KeptOf(kept[..j], w) + if kept[j].wallet == w then [kept[j]] else []
  {
    assert kept[..j + 1][..j] == kept[..j];
  }

  lemma SameMaker(buys: seq<BundleBuy>, i: nat, k: nat)
    requires DistinctWallets(buys) && i < |buys| && k < |buys|
    ensures buys[k].wallet == buys[i].wallet <==> k == i
  {
  }

  lemma OnceAt(at: seq<nat>, j: nat)
    requires Distinct(at) && j < |at|
    ensures at[j] !in at[..j]
  {
  }

  lemma KeptInOrderSnoc(s: Storage, treasury: Address, buys: seq<BundleBuy>, worlds: seq<MakerWorld>, i: nat)
    requires |worlds| == |buys| && i < |buys|
    ensures KeptInOrder(s, treasury, buys[..i + 1], worlds[..i + 1])
            == KeptInOrder(s, treasury, buys[..i], worlds[..i])
               + match Kept(s, treasury, buys[i], worlds[i]) case Some(b) => [b] case None => []
  {
    assert buys[..i + 1][..i] == buys[..i] && worlds[..i + 1][..i] == worlds[..i];
  }

  /** What one maker contributes to the reordered list. */
  lemma KeptOfMaker(s0: Storage, now: Storage, treasury: Address, buys: seq<BundleBuy>, worlds: seq<MakerWorld>,
                    kept: seq<BundleBuy>, at: seq<nat>, order: seq<nat>, i: nat)
    requires |worlds| == |buys| && DistinctWallets(buys) && KeptFrom(s0, now, treasury, buys, worlds, kept, at)
    requires Distinct(at)
    requires Schedule(order, |buys|) && Covers(s0, treasury, buys, worlds, at, [], order) && i < |buys|
    ensures KeptOf(kept, buys[i].wallet)
            == match Kept(s0, treasury, buys[i], worlds[i]) case Some(b) => [b] case None => []
    ensures forall j :: 0 <= j < |KeptOf(kept, buys[i].wallet)| ==>
              Funded(now, treasury, KeptOf(kept, buys[i].wallet)[j])
  {
    KeptOfPrefix(s0, now, treasury, buys, worlds, kept, at, i, |kept|);
    assert kept[..|kept|] == kept && at[..|kept|] == at;
    assert i in order;
    if i !in at {
      assert Kept(s0, treasury, buys[i], worlds[i]) == None;
    }
  }

  /** What a maker's buy may carry once its reserve and its own gas are held back. */
  function BundleBuySpend(eth: nat, gasReserve: nat, feeCap: Option<nat>, gasLimit: nat,
                          buyFraction: Ratio): (spend: int)
    requires buyFraction.Valid()
    ensures 0 < spend ==> feeCap.Some? && spend + gasLimit * feeCap.value + gasReserve <= eth
  {
    if feeCap.None? then 0
    else
      var avail := SpendableWei(eth, gasReserve) - feeCap.value * gasLimit;
      SpendNeedsFunds(avail, buyFraction);
      ScaleWei(avail, buyFraction)
  }

  lemma SpendNeedsFunds(avail: int, frac: Ratio)
    requires frac.Valid()
    ensures avail < 0 ==> ScaleWei(avail, frac) <= 0
  {
    if avail < 0 && 0 < frac.num < frac.den {
      assert avail * frac.num < 0;
    }
  }

  /** It carries the largest amount within the buy fraction of what is left beside them. */
  lemma SpendIsLargest(eth: nat, gasReserve: nat, feeCap: Option<nat>, gasLimit: nat, frac: Ratio, x: nat)
    requires frac.Valid() && 0 < x
    ensures x <= BundleBuySpend(eth, gasReserve, feeCap, gasLimit, frac)
            <==> (&& feeCap.Some?
                  && (var avail := eth - gasReserve - gasLimit * feeCap.value;
                      x <= avail && x * frac.den <= avail * frac.num))
  {
    if feeCap.Some? {
      var avail := eth - gasReserve - gasLimit * feeCap.value;
      SpendNeedsFunds(SpendableWei(eth, gasReserve) - feeCap.value * gasLimit, frac);
      if 0 <= avail {
        ScaleIsLargest(avail, frac, x);
      }
    }
  }

  /** A buy sized from its wallet's balance, whose value and full gas that balance covers. */
  predicate Sized(eth: map<Address, nat>, gasReserve: nat, feeCap: nat, gasLimit: nat, buyFraction: Ratio,
                  buy: BundleBuy)
    requires buyFraction.Valid()
  {
    && buy.wallet in eth && 0 < buy.spend
    && buy.spend == BundleBuySpend(eth[buy.wallet], gasReserve, Some(feeCap), gasLimit, buyFraction)
    && buy.spend + gasLimit * feeCap <= eth[buy.wallet]
  }

  class Bundle {
    var buys: seq<BundleBuy>

    constructor (buys: seq<BundleBuy>)
      ensures this.buys == buys
    {
      this.buys := buys;
    }

    /** The bundle's entry for a wallet; an unknown wallet spends nothing. */
    method FindBuy(w: Address) returns (found: BundleBuy)
      ensures forall i :: 0 <= i < |buys| && buys[i].wallet == w && (forall j :: 0 <= j < i ==> buys[j].wallet != w) ==>
                found == buys[i]
      ensures (forall i :: 0 <= i < |buys| ==> buys[i].wallet != w) ==> found == BundleBuy(w, 0)
    {
      for i := 0 to |buys|
        invariant forall j :: 0 <= j < i ==> buys[j].wallet != w
      {
        if buys[i].wallet == w {
          return buys[i];
        }
      }
      return BundleBuy(w, 0);
    }

    /** Sizes every buy from fresh balances; makers that cannot cover value plus gas leave the bundle. */
    method RefreshWindowBuys(eth: map<Address, nat>, gasReserve: nat, feeCap: nat, gasLimit: nat, buyFraction: Ratio)
      returns (ghost at: seq<nat>)
      requires buyFraction.Valid() && forall i :: 0 <= i < |buys| ==> buys[i].wallet in eth
      modifies this
      ensures |at| == |buys| && forall j, k :: 0 <= j < k < |at| ==> at[j] < at[k]
      ensures forall j :: 0 <= j < |buys| ==> at[j] < |old(buys)| && buys[j].wallet == old(buys)[at[j]].wallet
      ensures forall j :: 0 <= j < |buys| ==> Sized(eth, gasReserve, feeCap, gasLimit, buyFraction, buys[j])
      ensures forall i :: 0 <= i < |old(buys)| && i !in at ==>
                BundleBuySpend(eth[old(buys)[i].wallet], gasReserve, Some(feeCap), gasLimit, buyFraction) <= 0
    {
      var kept: seq<BundleBuy> := [];
      at := [];
      for i := 0 to |buys|
        invariant |at| == |kept| && forall j, k :: 0 <= j < k < |at| ==> at[j] < at[k]
        invariant forall j :: 0 <= j < |kept| ==> at[j] < i && kept[j].wallet == buys[at[j]].wallet
        invariant forall j :: 0 <= j < |kept| ==> Sized(eth, gasReserve, feeCap, gasLimit, buyFraction, kept[j])
        invariant forall j :: 0 <= j < i && j !in at ==>
                    BundleBuySpend(eth[buys[j].wallet], gasReserve, Some(feeCap), gasLimit, buyFraction) <= 0
      {
        var spend := BundleBuySpend(eth[buys[i].wallet], gasReserve, Some(feeCap), gasLimit, buyFraction);
        if spend <= 0 {
          continue;
        }
        kept := kept + [BundleBuy(buys[i].wallet, spend)];
        at := at + [i];
      }
      buys := kept;
    }

    /** One maker's action: keep it, top its deposit up, or drop it. `pending` is a
        deposit still to be confirmed. */
    method TopUp(router: PonsMMRouter, treasury: Address, w: Address, world: MakerWorld)
      returns (kept: Option<BundleBuy>, pending: Option<BundleBuy>, ghost buy: BundleBuy)
      requires treasury != 0 && !world.readFails
      requires exists i :: 0 <= i < |buys| && buys[i].wallet == w && 0 < buys[i].spend
      requires DistinctWallets(buys)
      modifies router
      ensures buy in buys && buy.wallet == w
      ensures kept.None? || pending.None?
      ensures Kept(old(router.State()), treasury, buy, world)
              == if pending.Some? && world.mined && world.receiptSeen then pending else kept
      ensures kept.Some? ==> kept.value.wallet == w && Funded(router.State(), treasury, kept.value)
      ensures pending.Some? ==> pending.value.wallet == w
      ensures pending.Some? && world.mined ==> Funded(router.State(), treasury, pending.value)
      ensures Get(router.deposits, w) == DepositAfter(old(router.State()), treasury, buy, world)
      ensures old(Solvent(router.State())) ==> Solvent(router.State())
      ensures forall v :: v != w ==> SameFor(old(router.State()), router.State(), v)
    {
      var entry := FindBuy(w);
      buy := entry;
      var have, op := Get(router.deposits, w), Get(router.operatorOf, w);
      if have > 0 && op != treasury {
        return None, None, buy;
      }
      var need := entry.spend - have;
      if need <= 0 {
        return Some(entry), None, buy;
      }
      if world.gasCost.None? {
        return None, None, buy;
      }
      need := need - world.gasCost.value;
      if need <= 0 {
        if have > 0 {
          return Some(entry.(spend := have)), None, buy;
        }
        return None, None, buy;
      }
      entry := entry.(spend := have + need);
      if world.sendFails {
        return None, None, buy;
      }
      if world.mined {
        ghost var before := router.State();
        var failure := router.Deposit(w, need, treasury);
        assert failure == None;
        if Solvent(before) {
          DepositSolvent(before, w, need, treasury);
        }
      }
      return None, Some(entry), buy;
    }

    /** One worker's run: the maker's action, and the list it ends on. */
    method FinishOne(router: PonsMMRouter, treasury: Address, worlds: seq<MakerWorld>, i: nat,
                     kept0: seq<BundleBuy>, pendings0: seq<(BundleBuy, MakerWorld)>,
                     ghost s0: Storage, ghost finished: seq<nat>, ghost keptAt0: seq<nat>, ghost pendingAt0: seq<nat>)
      returns (kept: seq<BundleBuy>, pendings: seq<(BundleBuy, MakerWorld)>, ghost keptAt: seq<nat>,
               ghost pendingAt: seq<nat>)
      requires treasury != 0 && |worlds| == |buys| && DistinctWallets(buys)
      requires i < |buys| && 0 < buys[i].spend && i !in finished && !worlds[i].readFails
      requires SameFor(s0, router.State(), buys[i].wallet)
      requires Progress(s0, router.State(), treasury, buys, worlds, finished, kept0, keptAt0, pendings0, pendingAt0)
      requires AllParked(s0, router.State(), treasury, buys, worlds, finished)
      modifies router
      ensures Progress(s0, router.State(), treasury, buys, worlds, finished + [i], kept, keptAt, pendings, pendingAt)
      ensures AllParked(s0, router.State(), treasury, buys, worlds, finished + [i])
      ensures old(Solvent(router.State())) ==> Solvent(router.State())
      ensures forall v :: v != buys[i].wallet ==> SameFor(old(router.State()), router.State(), v)
    {
      var now, later;
      ghost var buy;
      now, later, buy := TopUp(router, treasury, buys[i].wallet, worlds[i]);
      ParkedStays(s0, old(router.State()), router.State(), treasury, buys, worlds, finished, i);
      kept, keptAt, pendings, pendingAt := kept0, keptAt0, pendings0, pendingAt0;
      if now.Some? {
        ListKept(s0, old(router.State()), router.State(), treasury, buys, worlds, finished, i, kept, keptAt, pendings,
                 pendingAt, now.value);
        kept, keptAt := kept + [now.value], keptAt + [i];
      } else if later.Some? {
        ListPending(s0, old(router.State()), router.State(), treasury, buys, worlds, finished, i, kept, keptAt,
                    pendings, pendingAt, later.value);
        pendings, pendingAt := pendings + [(later.value, worlds[i])], pendingAt + [i];
      } else {
        ListNone(s0, old(router.State()), router.State(), treasury, buys, worlds, finished, i, kept, keptAt, pendings,
                 pendingAt);
      }
    }

    /** Runs every maker's action in the order the workers finish; one failed read fails the whole. */
    method TopUpAll(router: PonsMMRouter, treasury: Address, worlds: seq<MakerWorld>, order: seq<nat>)
      returns (failed: bool, kept: seq<BundleBuy>, pendings: seq<(BundleBuy, MakerWorld)>, ghost keptAt: seq<nat>,
               ghost pendingAt: seq<nat>)
      requires treasury != 0 && |worlds| == |buys| && Schedule(order, |buys|)
      requires DistinctWallets(buys)
      requires forall i :: 0 <= i < |buys| ==> 0 < buys[i].spend
      modifies router
      ensures failed <==> exists j :: 0 <= j < |order| && worlds[order[j]].readFails
      ensures !failed ==>
                Progress(old(router.State()), router.State(), treasury, buys, worlds, order, kept, keptAt, pendings,
                         pendingAt)
      ensures !failed ==> AllParked(old(router.State()), router.State(), treasury, buys, worlds, order)
      ensures old(Solvent(router.State())) ==> Solvent(router.State())
    {
      kept, pendings, failed := [], [], false;
      keptAt, pendingAt := [], [];
      ghost var s0, finished := router.State(), [];
      for k := 0 to |order|
        invariant failed <==> exists j :: 0 <= j < k && worlds[order[j]].readFails
        invariant forall j :: k <= j < |order| ==> SameFor(s0, router.State(), buys[order[j]].wallet)
        invariant forall i :: i in finished ==> i in order[..k]
        invariant Solvent(s0) ==> Solvent(router.State())
        invariant !failed ==> finished == order[..k]
        invariant Progress(s0, router.State(), treasury, buys, worlds, finished, kept, keptAt, pendings, pendingAt)
        invariant AllParked(s0, router.State(), treasury, buys, worlds, finished)
      {
        var i := order[k];
        assert order[..k + 1] == order[..k] + [i];
        if worlds[i].readFails {
          failed := true;
          continue;
        }
        ghost var was := router.State();
        kept, pendings, keptAt, pendingAt := FinishOne(router, treasury, worlds, i, kept, pendings, s0, finished,
                                                       keptAt, pendingAt);
        finished := finished + [i];
        forall j | k < j < |order|
          ensures SameFor(s0, router.State(), buys[order[j]].wallet)
        {
          assert SameFor(was, router.State(), buys[order[j]].wallet);
        }
      }
      assert order[..|order|] == order;
    }

    /** Adds every pending deposit whose receipt confirms it. */
    method ConfirmDeposits(kept0: seq<BundleBuy>, pendings: seq<(BundleBuy, MakerWorld)>, worlds: seq<MakerWorld>,
                           treasury: Address,
                           ghost s0: Storage, ghost now: Storage, ghost at0: seq<nat>,
                           ghost pendingAt: seq<nat>, ghost order: seq<nat>)
      returns (kept: seq<BundleBuy>, ghost at: seq<nat>)
      requires |worlds| == |buys| && KeptFrom(s0, now, treasury, buys, worlds, kept0, at0)
      requires PendingFrom(s0, now, treasury, buys, worlds, pendings, pendingAt)
      requires Once(at0, pendingAt) && Covers(s0, treasury, buys, worlds, at0, pendingAt, order)
      ensures KeptFrom(s0, now, treasury, buys, worlds, kept, at) && Once(at, [])
      ensures Covers(s0, treasury, buys, worlds, at, [], order)
    {
      kept, at := kept0, at0;
      assert pendingAt[0..] == pendingAt;
      for p := 0 to |pendings|
        invariant KeptFrom(s0, now, treasury, buys, worlds, kept, at)
        invariant Once(at, pendingAt[p..])
        invariant Covers(s0, treasury, buys, worlds, at, pendingAt[p..], order)
      {
        assert pendingAt[p..] == [pendingAt[p]] + pendingAt[p + 1..];
        var buy, world := pendings[p].0, pendings[p].1;
        if world.receiptSeen && world.mined {
          ConfirmOne(s0, now, treasury, buys, worlds, kept, at, buy, pendingAt[p], pendingAt[p + 1..], order);
          kept, at := kept + [buy], at + [pendingAt[p]];
        } else {
          DropOne(s0, treasury, buys, worlds, at, pendingAt[p], pendingAt[p + 1..], order);
        }
      }
    }

    /** Adds the kept entries of one wallet. */
    method AppendKept(front: seq<BundleBuy>, kept: seq<BundleBuy>, w: Address) returns (ordered: seq<BundleBuy>)
      ensures ordered == front + KeptOf(kept, w)
    {
      ordered := front;
      for j := 0 to |kept|
        invariant ordered == front + KeptOf(kept[..j], w)
      {
        assert kept[..j + 1][..j] == kept[..j];
        if kept[j].wallet == w {
          ordered := ordered + [kept[j]];
        }
      }
      assert kept[..|kept|] == kept;
    }

    /** Puts the kept entries back into the bundle's own order. */
    method Reorder(kept: seq<BundleBuy>, ghost s0: Storage, ghost now: Storage, treasury: Address,
                   ghost worlds: seq<MakerWorld>, ghost at: seq<nat>, ghost order: seq<nat>)
      returns (ordered: seq<BundleBuy>)
      requires |worlds| == |buys| && DistinctWallets(buys) && Schedule(order, |buys|)
      requires KeptFrom(s0, now, treasury, buys, worlds, kept, at) && Once(at, [])
      requires Covers(s0, treasury, buys, worlds, at, [], order)
      ensures ordered == KeptInOrder(s0, treasury, buys, worlds) && FundedList(now, treasury, ordered)
    {
      OnceIsDistinct(at);
      ordered := [];
      for i := 0 to |buys|
        invariant ordered == KeptInOrder(s0, treasury, buys[..i], worlds[..i])
        invariant FundedList(now, treasury, ordered)
      {
        ReorderStep(s0, now, treasury, buys, worlds, kept, at, order, i);
        ordered := AppendKept(ordered, kept, buys[i].wallet);
      }
      assert buys[..|buys|] == buys && worlds[..|worlds|] == worlds;
    }

    /** Tops up, confirms, and keeps the funded makers in the bundle's own order. */
    method EnsureDeposits(router: PonsMMRouter, treasury: Address, worlds: seq<MakerWorld>, order: seq<nat>)
      returns (failure: bool)
      requires treasury != 0 && |worlds| == |buys| && Schedule(order, |buys|)
      requires DistinctWallets(buys)
      requires forall i :: 0 <= i < |buys| ==> 0 < buys[i].spend
      modifies this, router
      ensures (exists i :: 0 <= i < |worlds| && worlds[i].readFails) ==> failure && buys == old(buys)
      ensures (forall i :: 0 <= i < |worlds| ==> !worlds[i].readFails) ==>
                && Ensured(old(router.State()), router.State(), treasury, old(buys), worlds, buys)
                && (failure <==> buys == [])
      ensures !failure && (forall i :: 0 <= i < |old(buys)| ==> old(buys)[i].wallet != 0) ==>
                AllFunded(router.State(), treasury, buys)
      ensures old(Solvent(router.State())) ==> Solvent(router.State())
    {
      var failed, kept, pendings;
      ghost var keptAt, pendingAt;
      failed, kept, pendings, keptAt, pendingAt := TopUpAll(router, treasury, worlds, order);
      assert (exists i :: 0 <= i < |worlds| && worlds[i].readFails) ==> failed by {
        if i :| 0 <= i < |worlds| && worlds[i].readFails {
          assert i in order;
        }
      }
      if failed {
        return true;
      }
      ghost var at;
      kept, at := ConfirmDeposits(kept, pendings, worlds, treasury, old(router.State()), router.State(), keptAt,
                                  pendingAt, order);
      var ordered := Reorder(kept, old(router.State()), router.State(), treasury, worlds, at, order);
      AllAreParked(old(router.State()), router.State(), treasury, buys, worlds, order);
      EnsuredAreFunded(old(router.State()), router.State(), treasury, buys, worlds, ordered);
      buys := ordered;
      failure := |buys| == 0;
    }

    /** Parks the deposits and sends the atomic launch, with no other router activity between:
        whatever makes it revert, it is no maker's operator, deposit or spend. */
    method EnsureAndLaunch(router: PonsMMRouter, treasury: Address, worlds: seq<MakerWorld>, order: seq<nat>,
                           value: nat, terms: Terms, factory: Address, officialRouter: Address,
                           reply: LaunchReply, l2Block: nat, replies: seq<BuyReply>, pay: PayReply)
      returns (failure: bool, error: Option<Error>)
      requires Solvent(router.State())
      requires treasury != 0 && |worlds| == |replies| == |buys| && Schedule(order, |buys|) && DistinctWallets(buys)
      requires forall i :: 0 <= i < |buys| ==> 0 < buys[i].spend && buys[i].wallet != 0
      modifies this, router
      ensures error.Some? ==> !failure && error.value !in {NotOperator, InsufficientDeposit, ZeroValue, Panic}
      ensures Solvent(router.State())
    {
      error := None;
      failure := EnsureDeposits(router, treasury, worlds, order);
      if failure {
        return;
      }
      KeptCount(old(router.State()), treasury, old(buys), worlds);
      var fills := replies[..|buys|];
      ghost var parked := router.State();
      ghost var outcome := AtomicSpec(parked, treasury, value, terms, factory, officialRouter, reply, l2Block,
                                      AtomicBuys(buys), fills, pay);
      LaunchNeverBlamesMakers(parked, treasury, value, terms, factory, officialRouter, reply, l2Block, buys, fills,
                              pay);
      LaunchKeepsSolvent(parked, treasury, value, terms, factory, officialRouter, reply, l2Block, buys, fills, pay);
      var makerTokens;
      error, makerTokens := router.LaunchAndBuyAtomic(treasury, value, terms, factory, officialRouter, reply, l2Block,
                                                      AtomicBuys(buys), fills, pay);
      assert outcome.Revert? ==> error == Some(outcome.error);
    }
  }

  lemma {:induction false} KeptCount(s: Storage, treasury: Address, buys: seq<BundleBuy>, worlds: seq<MakerWorld>)
    requires |worlds| == |buys|
    ensures |KeptInOrder(s, treasury, buys, worlds)| <= |buys|
  {
    if buys != [] {
      KeptCount(s, treasury, buys[..|buys| - 1], worlds[..|buys| - 1]);
    }
  }

  lemma LaunchKeepsSolvent(s: Storage, treasury: Address, value: nat, terms: Terms, factory: Address,
                           officialRouter: Address,
                           reply: LaunchReply, l2Block: nat, buys: seq<BundleBuy>, replies: seq<BuyReply>,
                           pay: PayReply)
    requires Solvent(s) && treasury != 0 && |replies| == |buys| && AllFunded(s, treasury, buys)
    ensures Solvent(After(s,
                          AtomicSpec(s, treasury, value, terms, factory, officialRouter, reply, l2Block,
                                     AtomicBuys(buys), replies, pay)))
  {
    var fills := seq(|buys|, i requires 0 <= i < |buys| => (AtomicBuys(buys)[i], replies[i]));
    assert BuysOf(fills) == AtomicBuys(buys) && RepliesOf(fills) == replies;
    CallKeepsSolvent(s, Atomic(treasury, value, terms, factory, officialRouter, reply, l2Block, fills, pay));
  }

  // ---------------------------------------------------------------------
  // The funded bundle goes through
  // ---------------------------------------------------------------------

  /** The calls the bundle asks of the router. */
  function AtomicBuys(buys: seq<BundleBuy>): (out: seq<AtomicBuy>)
    requires forall i :: 0 <= i < |buys| ==> 0 <= buys[i].spend
    ensures |out| == |buys|
  {
    seq(|buys|, i requires 0 <= i < |buys| => AtomicBuy(buys[i].wallet, buys[i].spend))
  }

  /** Every maker of the list can be filled, once. */
  predicate AllFunded(s: Storage, treasury: Address, buys: seq<BundleBuy>) {
    DistinctWallets(buys) && forall i :: 0 <= i < |buys| ==> Funded(s, treasury, buys[i]) && buys[i].wallet != 0
  }

  /** The maker buys of a funded bundle can only be stopped by the curve itself. */
  lemma {:induction false} FundedBuysFill(s: Storage, treasury: Address, buys: seq<BundleBuy>, replies: seq<BuyReply>)
    requires Solvent(s) && treasury != 0 && |replies| == |buys| && AllFunded(s, treasury, buys)
    ensures var o := MakerBuys(s, treasury, AtomicBuys(buys), replies);
            if forall i :: 0 <= i < |replies| ==> replies[i].Bought? then o.Commit? else o == Revert(ExternalRevert)
    decreases |buys|
  {
    if buys != [] {
      var first := AtomicBuys(buys)[0];
      var o := MakerBuy(s, treasury, first, replies[0]);
      MakerBuySolvent(s, treasury, first, replies[0]);
      assert Funded(s, treasury, buys[0]);
      assert AtomicBuys(buys)[1..] == AtomicBuys(buys[1..]);
      if o.Commit? {
        forall i | 0 <= i < |buys[1..]|
          ensures Funded(o.state, treasury, buys[1..][i])
        {
          assert buys[1..][i] == buys[i + 1] && Funded(s, treasury, buys[i + 1]);
          assert buys[i + 1].wallet != buys[0].wallet;
        }
        FundedBuysFill(o.state, treasury, buys[1..], replies[1..]);
        assert forall i :: 0 < i < |replies| ==> replies[i] == replies[1..][i - 1];
      }
    }
  }

  /** An atomic launch of a funded bundle, with no other router activity, never
      reverts for a wrong operator, a short deposit, or a zero spend. */
  lemma LaunchNeverBlamesMakers(s: Storage, treasury: Address, value: nat, terms: Terms, factory: Address,
                                officialRouter: Address,
                                reply: LaunchReply, l2Block: nat, buys: seq<BundleBuy>, replies: seq<BuyReply>,
                           pay: PayReply)
    requires Solvent(s) && treasury != 0 && |replies| == |buys| && AllFunded(s, treasury, buys)
    ensures var o := AtomicSpec(s, treasury, value, terms, factory, officialRouter, reply, l2Block, AtomicBuys(buys),
                                replies, pay);
            o.Revert? ==> o.error !in {NotOperator, InsufficientDeposit, ZeroValue, Panic}
  {
    var launched := LaunchStep(s.(balance := s.balance + value), terms, factory, officialRouter, value, reply, l2Block);
    if launched.Commit? {
      assert forall i :: 0 <= i < |buys| ==> Funded(s, treasury, buys[i]) ==> Funded(launched.state, treasury, buys[i]);
      FundedBuysFill(launched.state, treasury, buys, replies);
      MakerBuysSolvent(launched.state, treasury, AtomicBuys(buys), replies);
    }
  }

  /** The launch of a funded bundle takes exactly each maker's own spend from its deposit, and puts what the curve
      hands back in again. */
  lemma LaunchSpendsDeposits(s: Storage, treasury: Address, buys: seq<BundleBuy>, replies: seq<BuyReply>, i: nat)
    requires Solvent(s) && treasury != 0 && |replies| == |buys| && AllFunded(s, treasury, buys) && i < |buys|
    requires forall j :: 0 <= j < |replies| ==> replies[j].Bought?
    ensures MakerBuys(s, treasury, AtomicBuys(buys), replies).Commit?
    ensures var t := MakerBuys(s, treasury, AtomicBuys(buys), replies).state;
            Get(t.deposits, buys[i].wallet)
            == Get(s.deposits, buys[i].wallet) - buys[i].spend + replies[i].paidBack
  {
    FundedBuysFill(s, treasury, buys, replies);
    var fills := seq(|buys|, j requires 0 <= j < |buys| => (AtomicBuys(buys)[j], replies[j]));
    assert BuysOf(fills) == AtomicBuys(buys) && RepliesOf(fills) == replies;
    AtomicMovesDeposits(s, treasury, fills, buys[i].wallet);
    OneFill(buys, fills, replies, i, buys[i].wallet);
  }

  /** A maker of the bundle has one buy among the calls, of its own spend. */
  lemma {:induction false} OneFill(buys: seq<BundleBuy>, fills: seq<(AtomicBuy, BuyReply)>, replies: seq<BuyReply>,
                                   i: nat, w: Address)
    requires |replies| == |buys| == |fills| && DistinctWallets(buys)
    requires forall j :: 0 <= j < |buys| ==> 0 <= buys[j].spend
    requires forall j :: 0 <= j < |fills| ==> fills[j] == (AtomicBuys(buys)[j], replies[j])
    requires i < |buys| ==> buys[i].wallet == w && replies[i].Bought?
    requires i >= |buys| ==> forall j :: 0 <= j < |buys| ==> buys[j].wallet != w
    ensures Quotes(fills, w) == if i < |buys| then buys[i].spend else 0
    ensures Refunds(fills, w) == if i < |buys| then replies[i].paidBack else 0
    decreases |buys|
  {
    if buys != [] {
      assert AtomicBuys(buys)[1..] == AtomicBuys(buys[1..]);
      forall j | 0 <= j < |fills[1..]|
        ensures fills[1..][j] == (AtomicBuys(buys[1..])[j], replies[1..][j])
      {
        assert fills[j + 1] == (AtomicBuys(buys)[j + 1], replies[j + 1]);
      }
      OneFill(buys[1..], fills[1..], replies[1..], if i == 0 then |buys| else i - 1, w);
    }
  }

  /** What is kept is an order-preserving sub-list of the makers, none of them spending more than planned. */
  lemma {:induction false} KeptIsSublist(s: Storage, treasury: Address, buys: seq<BundleBuy>, worlds: seq<MakerWorld>)
    requires |worlds| == |buys|
    ensures exists at: seq<nat> :: SublistAt(KeptInOrder(s, treasury, buys, worlds), buys, at)
  {
    if buys == [] {
      assert SublistAt(KeptInOrder(s, treasury, buys, worlds), buys, []);
    } else {
      var n := |buys| - 1;
      KeptIsSublist(s, treasury, buys[..n], worlds[..n]);
      var front := KeptInOrder(s, treasury, buys[..n], worlds[..n]);
      var at: seq<nat> :| SublistAt(front, buys[..n], at);
      match Kept(s, treasury, buys[n], worlds[n]) {
        case None =>
          assert KeptInOrder(s, treasury, buys, worlds) == front;
          assert SublistAt(front, buys, at);
        case Some(b) =>
          assert KeptInOrder(s, treasury, buys, worlds) == front + [b];
          KeptTrims(s, treasury, buys[n], worlds[n]);
          SublistSnoc(front, buys, at, b);
      }
    }
  }

  /** A maker is kept exactly when no other operator holds its balance and its deposit covers its spend, or
      its gas is known and the deposit it then needs, if any, is confirmed; it is kept with the largest
      spend that is already parked or that one deposit, paying its own gas, can reach. */
  lemma KeptExactly(s: Storage, treasury: Address, buy: BundleBuy, world: MakerWorld, x: int)
    requires 0 < buy.spend
    ensures var have, k := Get(s.deposits, buy.wallet), Kept(s, treasury, buy, world);
            && (k.Some? <==>
                  && (have == 0 || Get(s.operatorOf, buy.wallet) == treasury)
                  && (|| buy.spend <= have
                      || (&& world.gasCost.Some?
                          && (if have + world.gasCost.value < buy.spend
                              then !world.sendFails && world.mined && world.receiptSeen
                              else 0 < have))))
            && (k.Some? ==>
                  && k.value.wallet == buy.wallet
                  && (x <= k.value.spend <==>
                        && x <= buy.spend
                        && (x <= have || (world.gasCost.Some? && x + world.gasCost.value <= buy.spend))))
  {
  }

  /** The bundle keeps exactly the makers that are kept, in their order. */
  lemma {:induction false} KeepsExactly(s: Storage, treasury: Address, buys: seq<BundleBuy>, worlds: seq<MakerWorld>)
    returns (at: seq<nat>)
    requires |worlds| == |buys|
    ensures |at| == |KeptInOrder(s, treasury, buys, worlds)| && forall j, k :: 0 <= j < k < |at| ==> at[j] < at[k]
    ensures forall j :: 0 <= j < |at| ==>
              at[j] < |buys|
              && Kept(s, treasury, buys[at[j]], worlds[at[j]]) == Some(KeptInOrder(s, treasury, buys, worlds)[j])
    ensures forall i :: 0 <= i < |buys| && i !in at ==> Kept(s, treasury, buys[i], worlds[i]) == None
  {
    at := [];
    if buys != [] {
      var n := |buys| - 1;
      var front := KeptInOrder(s, treasury, buys[..n], worlds[..n]);
      at := KeepsExactly(s, treasury, buys[..n], worlds[..n]);
      assert forall i :: 0 <= i < n && i !in at ==> Kept(s, treasury, buys[..n][i], worlds[..n][i]) == None;
      match Kept(s, treasury, buys[n], worlds[n]) {
        case None => assert KeptInOrder(s, treasury, buys, worlds) == front;
        case Some(b) =>
          assert KeptInOrder(s, treasury, buys, worlds) == front + [b];
          at := at + [n];
      }
    }
  }

  lemma KeptTrims(s: Storage, treasury: Address, buy: BundleBuy, world: MakerWorld)
    ensures var k := Kept(s, treasury, buy, world);
            k.Some? ==> k.value.wallet == buy.wallet && k.value.spend <= buy.spend
  {
  }

  lemma SublistSnoc(front: seq<BundleBuy>, buys: seq<BundleBuy>, at: seq<nat>, b: BundleBuy)
    requires buys != [] && SublistAt(front, buys[..|buys| - 1], at)
    requires b.wallet == buys[|buys| - 1].wallet && b.spend <= buys[|buys| - 1].spend
    ensures SublistAt(front + [b], buys, at + [|buys| - 1])
  {
  }

  /** A sub-list of distinct makers is distinct. */
  lemma SublistIsDistinct(kept: seq<BundleBuy>, buys: seq<BundleBuy>, at: seq<nat>)
    requires SublistAt(kept, buys, at) && DistinctWallets(buys)
    ensures DistinctWallets(kept)
  {
    forall i, j | 0 <= i < j < |kept|
      ensures kept[i].wallet != kept[j].wallet
    {
      assert at[i] < at[j];
    }
  }

  /** Entry j of the kept list comes from maker at[j], with its spend only ever trimmed. */
  ghost predicate SublistAt(kept: seq<BundleBuy>, buys: seq<BundleBuy>, at: seq<nat>) {
    && |at| == |kept|
    && (forall j, k :: 0 <= j < k < |at| ==> at[j] < at[k])
    && forall j :: 0 <= j < |kept| ==>
         at[j] < |buys| && kept[j].wallet == buys[at[j]].wallet && kept[j].spend <= buys[at[j]].spend
  }
}
