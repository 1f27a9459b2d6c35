/** How distribution ends: successful batches of the drawn size clear whole
    wallets until nobody holds, and no batch outcome adds a holder. */
module Distribution {
  import opened FloorMath
  import opened Decide
  import opened Optional
  import opened EngineSteps

  /** The balances with the given wallets emptied. */
  function Emptied(tokens: seq<nat>, ws: seq<nat>): (t: seq<nat>)
    ensures |t| == |tokens|
  {
    seq(|tokens|, w requires 0 <= w < |tokens| => if w in ws then 0 else tokens[w])
  }

  /** The holders are listed once each, in pool order. */
  lemma {:induction false} HoldersInOrder(tokens: seq<nat>)
    ensures forall i :: 0 <= i < |Holders(tokens)| ==> Holders(tokens)[i] < |tokens| && 0 < tokens[Holders(tokens)[i]]
    ensures forall i, j :: 0 <= i < j < |Holders(tokens)| ==> Holders(tokens)[i] < Holders(tokens)[j]
  {
    if tokens != [] {
      var n := |tokens| - 1;
      HoldersInOrder(tokens[..n]);
      var front := Holders(tokens[..n]);
      assert Holders(tokens) == front + if tokens[n] == 0 then [] else [n];
    }
  }

  /** Nobody holds exactly when the total is zero. */
  lemma {:induction false} HoldersEmpty(tokens: seq<nat>)
    ensures Holders(tokens) == [] <==> Sum(tokens) == 0
  {
    if tokens != [] {
      var n := |tokens| - 1;
      HoldersEmpty(tokens[..n]);
      SumNonNegative(tokens[..n]);
      assert tokens == tokens[..n] + [tokens[n]];
      SumSnoc(tokens[..n], tokens[n]);
    }
  }

  /** Emptying the first m holders leaves exactly the later ones holding. */
  lemma {:induction false} HoldersAfter(tokens: seq<nat>, m: nat)
    requires m <= |Holders(tokens)|
    ensures Holders(Emptied(tokens, Holders(tokens)[..m])) == Holders(tokens)[m..]
  {
    if tokens != [] {
      var n := |tokens| - 1;
      var front, all := Holders(tokens[..n]), Holders(tokens);
      var t := Emptied(tokens, all[..m]);
      assert all == front + if tokens[n] == 0 then [] else [n];
      if m <= |front| {
        HoldersAfter(tokens[..n], m);
        HoldersInOrder(tokens[..n]);
        assert all[..m] == front[..m];
        assert n !in front[..m];
        assert t[..n] == Emptied(tokens[..n], front[..m]);
        assert all[m..] == front[m..] + if tokens[n] == 0 then [] else [n];
      } else {
        HoldersAfter(tokens[..n], |front|);
        assert all[..m] == front + [n];
        assert t[..n] == Emptied(tokens[..n], front[..|front|]);
        assert t[n] == 0;
      }
    }
  }

  /** Distributing, with no buy pending and no batch out; the batch size is k once drawn. */
  predicate Winding(s: EngineState, k: nat) {
    && s.state == Distributing && s.retailResponseActive && !s.ticking && !s.exited
    && s.pendingBuys == 0 && |s.unsettled| == |s.tokens|
    && !s.distributionRoundRunning && s.batches == []
    && 4 <= k <= 6 && s.distributionBatchSize in {0, k}
  }

  /** The first m holders. */
  function FirstHolders(s: EngineState, k: nat): seq<nat> {
    Holders(s.tokens)[..Min(k, |Holders(s.tokens)|)]
  }

  /** Sells that clear the given wallets in full. */
  function ClearingSales(ws: seq<nat>): (events: seq<Event>)
    ensures |events| == |ws|
  {
    seq(|ws|, i requires 0 <= i < |ws| => BatchSale(0, ws[i], Sold(0)))
  }

  /** One successful batch: the tick that starts it, its sells, its report and its result. */
  function BatchEvents(s: EngineState, k: nat): seq<Event> {
    [SellTick(None, seq(|s.tokens|, _ => Failed), k)]
    + ClearingSales(FirstHolders(s, k))
    + [BatchReport(0), BatchResult(0)]
  }

  /** One more sell of a batch clears one more wallet. */
  lemma SaleStep(s: EngineState, w: nat, left: set<nat>)
    requires |s.unsettled| == |s.tokens| && s.batches == [SellingBatch(left)] && w < |s.tokens| && w in left
    ensures Step(s, BatchSale(0, w, Sold(0))) == s.(tokens := Emptied(s.tokens, [w]),
                                                    batches := [SellingBatch(left - {w})])
  {
    assert s.batches[0 := SellingBatch(left - {w})] == [SellingBatch(left - {w})];
    assert AfterSale(s.tokens, w, Sold(0)) == Emptied(s.tokens, [w]);
  }

  lemma EmptiedSnoc(tokens: seq<nat>, ws: seq<nat>, w: nat)
    ensures Emptied(Emptied(tokens, ws), [w]) == Emptied(tokens, ws + [w])
  {
  }

  /** The sells of a batch empty exactly its wallets. */
  lemma {:induction false} SalesEmpty(s: EngineState, ws: seq<nat>, left: set<nat>)
    requires |s.unsettled| == |s.tokens| && s.batches == [SellingBatch(left)]
    requires forall i :: 0 <= i < |ws| ==> ws[i] < |s.tokens| && ws[i] in left
    requires forall i, j :: 0 <= i < j < |ws| ==> ws[i] < ws[j]
    ensures Run(s, ClearingSales(ws)) == s.(tokens := Emptied(s.tokens, ws),
                                            batches := [SellingBatch(left - Elements(ws))])
    decreases |ws|
  {
    if ws == [] {
      assert Emptied(s.tokens, ws) == s.tokens;
      assert left - Elements(ws) == left;
    } else {
      var n := |ws| - 1;
      var w := ws[n];
      SalesEmpty(s, ws[..n], left);
      assert ClearingSales(ws)[..n] == ClearingSales(ws[..n]);
      assert ws == ws[..n] + [w];
      SaleStep(Run(s, ClearingSales(ws[..n])), w, left - Elements(ws[..n]));
      EmptiedSnoc(s.tokens, ws[..n], w);
      assert left - Elements(ws[..n]) - {w} == left - Elements(ws);
    }
  }

  lemma TwoSteps(s: EngineState, x: Event, y: Event)
    ensures Run(s, [x, y]) == Step(Step(s, x), y)
  {
    assert [x, y][..1] == [x];
    OneStep(s, x);
  }

  /** The tick that starts a batch of the first holders. */
  lemma TickStarts(s: EngineState, k: nat)
    requires Winding(s, k) && Holders(s.tokens) != []
    ensures Step(s, SellTick(None, seq(|s.tokens|, _ => Failed), k))
            == s.(distributionBatchSize := k, distributionRoundRunning := true,
                  batches := [SellingBatch(Elements(FirstHolders(s, k)))])
  {
    assert BatchSize(s, k) == k;
    assert BatchWallets(s, k) == FirstHolders(s, k);
  }

  lemma ReportStep(s: EngineState, left: set<nat>)
    requires |s.unsettled| == |s.tokens| && s.batches == [SellingBatch(left)]
    ensures Step(s, BatchReport(0)) == s.(batches := [Reported])
  {
    assert s.batches[0 := Reported] == [Reported];
  }

  lemma ResultStep(s: EngineState)
    requires s.state == Distributing && !s.ticking && !s.exited && |s.unsettled| == |s.tokens|
    requires s.batches == [Reported]
    ensures Step(s, BatchResult(0)) == ResultApplied(s.(batches := []))
  {
    assert s.batches[..0] + s.batches[1..] == [];
  }

  /** A batch that finished: its report frees the guard, and ends the strategy when nobody holds. */
  lemma ReportFrees(s: EngineState, left: set<nat>)
    requires s.state == Distributing && !s.ticking && !s.exited && s.pendingBuys == 0 && |s.unsettled| == |s.tokens|
    requires s.batches == [SellingBatch(left)]
    ensures var t := s.(distributionRoundRunning := false, batches := []);
            Run(s, [BatchReport(0), BatchResult(0)])
            == if Holders(s.tokens) == [] then t.(retailResponseActive := false, state := Done) else t
  {
    HoldersEmpty(s.tokens);
    TwoSteps(s, BatchReport(0), BatchResult(0));
    ReportStep(s, left);
    ResultStep(s.(batches := [Reported]));
  }

  /** A batch runs as its tick, its sells and its report, one after the other. */
  lemma BatchInParts(s: EngineState, k: nat)
    ensures var a := Step(s, SellTick(None, seq(|s.tokens|, _ => Failed), k));
            Run(s, BatchEvents(s, k)) == Run(Run(a, ClearingSales(FirstHolders(s, k))),
                                             [BatchReport(0), BatchResult(0)])
  {
    var tick, sales := SellTick(None, seq(|s.tokens|, _ => Failed), k), ClearingSales(FirstHolders(s, k));
    OneStep(s, tick);
    RunConcat(s, [tick], sales);
    RunConcat(s, [tick] + sales, [BatchReport(0), BatchResult(0)]);
  }

  /** One successful batch empties the first holders; it ends the strategy when they were the last. */
  lemma OneBatch(s: EngineState, k: nat)
    requires Winding(s, k) && Holders(s.tokens) != []
    ensures var t := Run(s, BatchEvents(s, k));
            && Holders(t.tokens) == Holders(s.tokens)[|FirstHolders(s, k)|..]
            && (if |Holders(s.tokens)| <= k then t.state == Done else Winding(t, k))
  {
    var ws := FirstHolders(s, k);
    BatchInParts(s, k);
    TickStarts(s, k);
    HoldersInOrder(s.tokens);
    var a := s.(distributionBatchSize := k, distributionRoundRunning := true, batches := [SellingBatch(Elements(ws))]);
    SalesEmpty(a, ws, Elements(ws));
    var b := a.(tokens := Emptied(s.tokens, ws), batches := [SellingBatch(Elements(ws) - Elements(ws))]);
    HoldersAfter(s.tokens, |ws|);
    ReportFrees(b, Elements(ws) - Elements(ws));
  }

  /** The state after j successful batches. */
  function AfterBatches(s: EngineState, k: nat, j: nat): EngineState {
    if j == 0 then s
    else
      var t := AfterBatches(s, k, j - 1);
      Run(t, BatchEvents(t, k))
  }

  /** One more batch, when the wallets before position from are already clear. */
  lemma BatchFrom(t: EngineState, k: nat, holders: seq<nat>, from: nat)
    requires Winding(t, k) && from + k < |holders| && Holders(t.tokens) == holders[from..]
    ensures var u := Run(t, BatchEvents(t, k)); Winding(u, k) && Holders(u.tokens) == holders[from + k..]
  {
    OneBatch(t, k);
    assert holders[from..][k..] == holders[from + k..];
  }

  /** While j batches cannot have cleared everyone, distribution goes on with the later holders. */
  lemma {:induction false} BatchesProgress(s: EngineState, k: nat, j: nat, from: nat)
    requires Winding(s, k) && from == j * k < |Holders(s.tokens)|
    ensures var t := AfterBatches(s, k, j);
            Winding(t, k) && Holders(t.tokens) == Holders(s.tokens)[from..]
  {
    if j == 0 {
      assert Holders(s.tokens)[0..] == Holders(s.tokens);
    } else {
      assert from == (j - 1) * k + k;
      BatchesProgress(s, k, j - 1, from - k);
      BatchFrom(AfterBatches(s, k, j - 1), k, Holders(s.tokens), from - k);
    }
  }

  lemma CeilBounds(h: nat, k: nat, j: nat)
    requires 0 < h && 0 < k
    ensures var c := (h + k - 1) / k;
            1 <= c && (c - 1) * k < h <= c * k && (j < c ==> j * k < h) && (c - 1) * k == c * k - k
  {
    var c := (h + k - 1) / k;
    FloorDiv(h + k - 1, k);
    FloorAtLeast(1, h + k - 1, k);
    if j < c {
      MulMono(j, c - 1, k);
    }
  }

  /** With h > 0 wallets holding and nothing else happening, the strategy is Done after
      exactly ceil(h / k) successful batches, and not before. */
  lemma DoneAfterCeilBatches(s: EngineState, k: nat, j: nat)
    requires Winding(s, k) && Holders(s.tokens) != []
    requires j <= (|Holders(s.tokens)| + k - 1) / k
    ensures AfterBatches(s, k, j).state == Done <==> j == (|Holders(s.tokens)| + k - 1) / k
    ensures AfterBatches(s, k, j).state == Done ==> Holders(AfterBatches(s, k, j).tokens) == []
  {
    var h := |Holders(s.tokens)|;
    CeilBounds(h, k, j);
    if j < (h + k - 1) / k {
      BatchesProgress(s, k, j, j * k);
    } else {
      LastBatch(s, k, j);
    }
  }

  lemma LastBatch(s: EngineState, k: nat, j: nat)
    requires Winding(s, k) && 1 <= j && (j - 1) * k < |Holders(s.tokens)| <= (j - 1) * k + k
    ensures AfterBatches(s, k, j).state == Done && Holders(AfterBatches(s, k, j).tokens) == []
  {
    BatchesProgress(s, k, j - 1, (j - 1) * k);
    FinalBatch(AfterBatches(s, k, j - 1), k);
  }

  lemma FinalBatch(t: EngineState, k: nat)
    requires Winding(t, k) && 0 < |Holders(t.tokens)| <= k
    ensures var u := Run(t, BatchEvents(t, k)); u.state == Done && Holders(u.tokens) == []
  {
    OneBatch(t, k);
  }

  /** With nobody holding, the first tick ends the strategy. */
  lemma DoneAtOnceWhenFlat(s: EngineState, k: nat, sales: seq<Sale>)
    requires Winding(s, k) && Holders(s.tokens) == [] && |sales| == |s.tokens|
    ensures Step(s, SellTick(None, sales, k)).state == Done
  {
    HoldersEmpty(s.tokens);
  }

  /** No outcome of a sell turns an empty wallet into a holder. */
  lemma {:induction false} SaleAddsNoHolder(tokens: seq<nat>, w: nat, sale: Sale)
    ensures |Holders(AfterSale(tokens, w, sale))| <= |Holders(tokens)|
  {
    if tokens != [] {
      var n := |tokens| - 1;
      SaleAddsNoHolder(tokens[..n], w, sale);
      assert AfterSale(tokens, w, sale)[..n] == AfterSale(tokens[..n], w, sale);
    }
  }

  predicate DistributionEvent(e: Event) {
    e.SellTick? || e.BatchSale? || e.BatchReport? || e.BatchResult?
  }

  lemma StepAddsNoHolder(s: EngineState, e: Event)
    requires s.state in {Distributing, Done} && DistributionEvent(e)
    ensures |Holders(Step(s, e).tokens)| <= |Holders(s.tokens)| && Step(s, e).state in {Distributing, Done}
  {
    if e.BatchSale? {
      SaleAddsNoHolder(s.tokens, e.w, e.sale);
    }
  }

  /** Through any ticks and batches, failed or partial, the number of holders never rises. */
  lemma {:induction false} HoldersNeverRise(s: EngineState, events: seq<Event>)
    requires s.state == Distributing
    requires forall i :: 0 <= i < |events| ==> DistributionEvent(events[i])
    ensures |Holders(Run(s, events).tokens)| <= |Holders(s.tokens)|
    ensures Run(s, events).state in {Distributing, Done}
  {
    if events != [] {
      var n := |events| - 1;
      HoldersNeverRise(s, events[..n]);
      StepAddsNoHolder(Run(s, events[..n]), events[n]);
    }
  }
}
